# Chiikawa collection tracker: a Dafny model of its core

The tracker keeps a public catalog of Chiikawa souvenir items. It is crawled from a
shop site, classified by region and category, and placed on a map of Japan. Each user
keeps a private ownership overlay on top of the catalog. This project models:

- **The crawlers** (services/crawler.py and the older one in app.py). Each link becomes
  an item with a name, an absolute image URL, a region and a category. Pages are
  concatenated in page order.
- **The region rules** of app.py. These are first-match scans over ordered tables:
  the search location's place table, then airport words, then flight words in the
  name, then the keyword table, then the default `其他` ("other").
- **The two servers' catalog operations** (app.py and routes.py):
  - toggling an item's ownership by id;
  - recomputing regions and counting the items changed;
  - importing, with reuse of known coordinates;
  - validating a public import;
  - the refresh that rebuilds the catalog from a crawl. The refresh numbers items,
    inherits locations and ownership, applies the correction table and picks emoji.
- **The browser's persistence** (static/js/storage.js):
  - the session-token slot with its one-minute margin and eviction on expiry;
  - the local copy of the overlay;
  - the save file in the user's remote folder;
  - the choice between the two stores, and logout.
- **The browser's ownership engine** (static/js/ui.js):
  - merging the catalog with the overlay;
  - the three-way filter and the owned counter;
  - toggling and resetting ownership;
  - the image viewer's index;
  - grouping the visible items into map pins by rounded coordinates. Airport-themed
    items of the "other" bucket are repeated at twelve major airports. Each pin gets a
    colour and a face.

Modules follow the program's structure:

| module | file | what it holds |
|---|---|---|
| `Common`, `Strings` | strings.dfy | `Option`, the `Net` outcome, Python/JS string tests and `strip` |
| `Catalog` | catalog.dfy | the item record and the two item keys |
| `Regions` | regions.dfy | the first-match region rules, generic over the tables |
| `AppTables` | app_tables.dfy | app.py's tables, as ordered pairs |
| `Crawler` | crawler.dfy | services/crawler.py |
| `ServerCommon` | server_common.dfy | the pieces both servers share |
| `ServerApp` | server_app.dfy | app.py |
| `ServerRoutes` | server_routes.dfy | routes.py |
| `ClientState` | client_state.dfy | the `appState` object of static/js/main.js, localStorage and the remote store, as classes |
| `Storage` | storage.dfy | static/js/storage.js |
| `Ui` | ui.dfy | static/js/ui.js |
| `Markers` | markers.dfy | the grouping and colouring part of `updateMapMarkers` |

Modelling conventions:

- An absent string field and the empty string are the same: the `.get(..., '')` reads,
  the truthiness tests and the JavaScript reads treat them alike. Two plain subscripts of
  app.py do not, and "## Left out" names them. An absent coordinate is `None`, and so is
  a JSON `null`.
- Coordinates are exact `real`s. `toFixed(5)` is exact rounding to units of 1e-5, with
  halves rounded up.
- Stored JSON text is modelled by what `JSON.parse` gives back: a session record, an
  overlay, or text that does not parse.
- The overlay maps each key to the truthiness of its `owned` field.
- Everything the core gets from outside is a parameter:
  - the clock (`now`, in milliseconds);
  - random draws in [0, 1);
  - the outcome of every remote request;
  - the pages the crawler fetches, taken as links `(title, alt, href)`;
  - the geocoder;
  - the tables of services/location.py, which is not part of this model.
- In-place updates stay in place:
  - `toggle_item` and both `fix_regions` are methods on an `array`;
  - the browser's state is a class whose methods name the fields they modify;
  - the loops of the crawler, the refreshes and the grouping are `while`/`for` loops.
- Each method is proved equal to a specification function. The lemmas beside that
  function state what the source promises.

## Model

| member | source | states |
|---|---|---|
| Catalog.ClientKey | static/js/ui.js:30 | the client key is the name when there is no image, otherwise the image's file name: a suffix with no '/', preceded by a '/' |
| Catalog.ServerKey | routes.py:23 | the server key is the image's last '/'-piece when that piece is non-empty (a '/'-free suffix of the image), and the name otherwise, in particular whenever the image is empty or ends in '/' |
| Catalog.KeysAgree | routes.py:33 | client and server keys agree exactly unless the image is non-empty with an empty last segment and the name is non-empty |
| Catalog.KeyIgnoresNameWhenImageSet | static/js/ui.js:62 | two items with the same image file name share a client key whatever their names |
| Strings.LastSegment | static/js/ui.js:30 | `split('/').pop()` is the '/'-free suffix after the last '/' |
| Strings.StripTrims | services/crawler.py:27 | `strip()` cuts only whitespace from either end and leaves a slice of the input that neither starts nor ends with whitespace |
| Regions.FirstKeyInFirst | app.py:66-71 | the place scan finds nothing exactly when no key occurs in the text, otherwise the first key in table order that occurs |
| Regions.FirstAnyInFirst | app.py:250-253 | the keyword scan finds nothing exactly when no entry has a keyword in the text, otherwise the first such entry |
| Regions.RegionFromAddressFirst | app.py:66-71 | `get_region_from_address` is None iff no place occurs in the address, else the region of the first place that does |
| Regions.KeywordRegionFirst | app.py:250-253 | the name scan gives the region of the first `REGION_KEYWORDS` entry with a keyword in the name, None if none |
| Regions.ApplyRegionLogicResult | app.py:255-259 | `apply_region_logic` never returns an empty region: it is `其他` or a region named in one of the tables |
| Regions.LocationTableWins | app.py:237-238 | a place-table match on the search location wins over anything in the name |
| Regions.AirportLocationIsOther | app.py:241-243 | with no table match, a search location containing `空港` or `機場` gives `其他` |
| Regions.FlightNameIsOther | app.py:246-248 | when the location decides nothing, a flight word in the name gives `其他` before any keyword scan |
| Regions.KeywordScanOrder | app.py:249-253 | otherwise the first region, in table order, with a keyword in the name is chosen |
| Regions.DefaultIsOther | app.py:256-257 | when nothing matches anywhere the region is `其他` |
| AppTables.AppTablesValid | app.py:73-86 | app.py's region-centre table has the `其他` entry that placement falls back to |
| Crawler.LinkNameRule | services/crawler.py:27-30 | the name is the stripped title, else the stripped image alt, and never starts or ends with whitespace |
| Crawler.ImageUrl | services/crawler.py:33-34 | the URL is `DOMAIN + href` exactly when `href` starts with '/', else `href` unchanged |
| Crawler.CategoryPriority | services/crawler.py:42-48 | each category holds exactly when its words occur and no higher-priority word does: tag > plush > socks > other |
| Crawler.CrawlRegionFirstMatch | services/crawler.py:36-40 | the region is that of the first keyword entry with a keyword in the name, `其他` when none has one |
| Crawler.ExtractItem | services/crawler.py:31 | a link is skipped exactly when it has no name |
| Crawler.ExtractedCount | services/crawler.py:26-31 | the items plus the skipped nameless links are exactly the links, so at most one item per link |
| Crawler.ExtractedItemsWellFormed | services/crawler.py:50-55 | every crawled item has exactly name, image, region and category, built by the rules from one of the links |
| Crawler.PartialPageIsPrefix | services/crawler.py:56-59 | an exception part-way through a page keeps what was gathered before it, a prefix of the full page |
| Crawler.PageItemsOfFailedPage | services/crawler.py:21 | a page that does not answer 200 or cannot be fetched yields nothing |
| Crawler.FetchPage | services/crawler.py:14-59 | the loop over the links returns the page's items as specified, at most one per link |
| Crawler.RunCrawler | services/crawler.py:62-78 | the result is the concatenation of the ten pages' results in page order |
| ServerApp.AppCategoryWithoutSocks | app.py:192-196 | app.py's crawler categorises like services/crawler.py except that socks are `other`: tag > plush > other |
| ServerApp.AppExtractItemFields | app.py:176-203 | each emitted item has the link's name, the absolute image URL, the keyword region and the category |
| ServerApp.PagesAfterStopIgnored | app.py:171-174 | nothing fetched after a page that stops the loop changes the result |
| ServerApp.UninterruptedCrawl | app.py:166-208 | when every page answers in full, the crawl is all pages' items in page order |
| ServerApp.AppFetchPage | app.py:168-207 | one page step returns that page's items and whether the loop goes on |
| ServerApp.AppRunCrawler | app.py:156-208 | the page loop computes the crawl: pages in order, stopping at the first failing, non-200 or empty page |
| ServerApp.FirstWithIdFirst | app.py:222-223 | no item is found exactly when none carries the id, otherwise the first one that does |
| ServerApp.ToggledOnlyFirst | app.py:222-225 | `toggle_item` changes only `owned`, and flips it on the first item with the id and on no other |
| ServerApp.ToggleMissingId | app.py:222-225 | an id no item carries leaves the database unchanged |
| ServerApp.ToggleTwice | app.py:222-225 | toggling the same id twice restores the database |
| ServerApp.ToggleItem | app.py:218-227 | the in-place loop leaves the array equal to the toggled database |
| ServerApp.AppFixedOnlyRegions | app.py:267-273 | `fix_regions` changes no field but the region, and sets each to `apply_region_logic` of the item |
| ServerApp.AppFixIdempotent | app.py:267-276 | a second `fix_regions` changes nothing, so its `updated` is 0 |
| ServerApp.FixItem | app.py:268-273 | one loop iteration changes only that item, and only its region, to the recomputed non-empty one, and reports whether it changed |
| ServerApp.FixRegions | app.py:262-276 | the in-place loop recomputes every region, and `updated` is the number of items whose region changed |
| ServerApp.ImportOneRules | app.py:293-327 | an imported item differs from the posted one only in lat/lng (reused, geocoded or kept) and in the region, which is recomputed |
| ServerApp.ReuseMeansNoGeocoding | app.py:298-312 | an item with an unchanged search location and known coordinates is not geocoded |
| ServerApp.ImportData | app.py:278-335 | a non-list body gives 400 and an unparsable one 500; a list is imported item by item, counting the geocoded ones |
| ServerApp.AppEmoji | app.py:385-390 | the emoji is 🧸 exactly for plush, 🏷️ exactly for tag, ✨ otherwise |
| ServerApp.RefreshOneRules | app.py:346-398 | a rebuilt item keeps the crawled fields, gets its id and category emoji, inherits ownership by exact name, and takes a manual location's coordinates or is scattered around its anchor |
| ServerApp.AutoPlacementNearAnchor | app.py:369-383 | an automatically placed item lands within half the spread of its spot or region centre |
| ServerApp.RefreshData | app.py:337-401 | the refresh fails when a manual location lacks coordinates, otherwise gives one rebuilt item per crawled item in crawl order |
| ServerApp.RefreshedListShape | app.py:344-398 | the rebuilt list has ids 1..n in crawl order, category emoji, and ownership inherited by exact name |
| ServerCommon.IndexByKeys | routes.py:20-24 | the dict built from the old items has exactly their keys |
| ServerCommon.IndexByLastWins | app.py:342 | a key's entry is the last item carrying that key |
| ServerCommon.LookupFound | app.py:378 | a table lookup fails exactly when no entry has the key |
| ServerCommon.AutoAnchor | app.py:369-380 | the anchor is the first spot in the name (spread 0.005), else the region's centre or the `其他` centre (spread 0.15) |
| ServerCommon.JitterWithinSpread | app.py:382-383 | a point scattered by a draw in [0,1) stays within half the spread of its anchor on each axis |
| ServerCommon.ChangedCountZero | routes.py:98-127 | the count of changed positions is 0 exactly when the list is unchanged |
| ServerCommon.CollectMeaning | routes.py:29-89 | building the list fails exactly when some item fails, and otherwise keeps every item at its position |
| ServerRoutes.BuildExistingMap | routes.py:19-24 | the loop builds the dict of old items by server key, later items replacing earlier ones |
| ServerRoutes.RoutesEmojiByCategory | routes.py:84-87 | 🧸 exactly for plush, 🏷️ for tag, 🧦 for socks, ✨ otherwise |
| ServerRoutes.RoutesRefreshOneFails | routes.py:52-58 | the rebuild raises at an item exactly when, without a correction, it inherits from an old item lacking lat or lng |
| ServerRoutes.RoutesRefreshOneShape | routes.py:29-89 | every rebuilt item keeps the crawled name, image and category, gets id idx+1 and its category's emoji, and no ownership |
| ServerRoutes.CorrectionWins | routes.py:36-49 | a correction entry for the (possibly inherited) search location sets lat, lng and region, whatever the old data |
| ServerRoutes.InheritanceBeatsAutomatic | routes.py:51-59 | without a correction, an old item with a manual location passes on its coordinates, its location, and its region when that is non-empty (the crawled region otherwise) |
| ServerRoutes.AutomaticOtherwise | routes.py:61-82 | otherwise the region is recomputed and the item lands within half the spread of its anchor |
| ServerRoutes.RefreshItem | routes.py:30-87 | the field-by-field loop body computes the rebuilt item (or the failure) |
| ServerRoutes.RefreshData | routes.py:17-92 | the loop collects the rebuilt items in crawl order, failing at the first item that fails |
| ServerRoutes.RefreshFailsOnMissingCoordinates | routes.py:52-58 | the refresh fails exactly when some crawled item inherits without a correction from an old item missing a coordinate |
| ServerRoutes.RefreshedIdsInCrawlOrder | routes.py:29-89 | the saved list has one item per crawled item, ids 1..n in crawl order, with its name and category emoji |
| ServerRoutes.CorrectedItemUpdatedOrSkipped | routes.py:101-115 | an item with a correction entry is left alone exactly when it already agrees, otherwise set to the table's lat, lng and region |
| ServerRoutes.CorrectedItemSettles | routes.py:104-115 | a corrected item agrees with its correction, so a second pass leaves it |
| ServerRoutes.ValidRegionUntouched | routes.py:118-122 | without a correction, an item whose region is set and not `其他` is untouched |
| ServerRoutes.UncorrectedOnlyRegion | routes.py:124-127 | without a correction, only the region can change, to the recomputed non-empty region |
| ServerRoutes.FixItem | routes.py:100-127 | one loop iteration modifies only that item, as specified, and reports whether it changed |
| ServerRoutes.FixRegions | routes.py:95-132 | the in-place loop fixes every item, and `updated` counts exactly the items it modified |
| ServerRoutes.ImportPublicData | routes.py:135-143 | a non-list body is rejected with 400 and nothing saved; a list is saved as posted; a parse error gives 500 |
| ClientState.AppState.constructor | static/js/main.js:7-32 | the page starts with nothing loaded, every filter on its wildcard, the viewer closed and signed out |
| Storage.SaveGoogleToken | static/js/storage.js:9-18 | the token slot is overwritten with the token and expiry `now + expires_in*1000 - 60000` |
| Storage.LoadGoogleToken | static/js/storage.js:20-34 | reading the token gives the stored token, or none with the slot evicted or left as specified |
| Storage.ReadTokenOutcomes | static/js/storage.js:20-34 | a token comes back exactly for a session record before its expiry; an expired record's slot is removed; an empty or unparsable slot is kept |
| Storage.TokenValidBeforeExpiry | static/js/storage.js:26-27 | a saved token is handed back before its expiry and the slot is kept |
| Storage.TokenEvictedAtExpiry | static/js/storage.js:28-31 | from its expiry on, a saved token is refused and only its slot is removed |
| Storage.ShortTokenNeverUsed | static/js/storage.js:12 | a token with a lifetime of 60 s or less is never handed back, given the one-minute margin |
| Storage.LoadFromLocal | static/js/storage.js:110-113 | the overlay becomes the parsed local copy, `{}` for unparsable text, unchanged for an empty slot |
| Storage.SaveToLocal | static/js/storage.js:115-117 | only the `chiikawa_user_save` slot is written, with the overlay |
| Storage.LocalRoundTrip | static/js/storage.js:110-117 | saving locally then loading gives back the saved overlay, whatever was loaded before |
| Storage.LocalLoadFailSoft | static/js/storage.js:111-112 | an absent slot leaves the overlay unchanged; text that does not parse resets it to `{}` |
| Storage.FirstUserSaveFirst | static/js/storage.js:52-57 | the query finds no file exactly when none in the folder is an untrashed save file, otherwise the first one |
| Storage.LoadFromDrive | static/js/storage.js:48-64 | no folder or a failed request leave the overlay; else it becomes the first save file's content, or `{}` |
| Storage.SaveToDrive | static/js/storage.js:66-108 | no folder or failure: no change; else the first save file's content is replaced, or a new file in the folder is created |
| Storage.DriveSaveTouchesOneFile | static/js/storage.js:83-105 | a successful save changes exactly one file: the first match's content, or one new file with `parents = [folderId]` |
| Storage.DriveSaveFindsSaved | static/js/storage.js:70-105 | after a successful save the folder's first save file holds the saved overlay |
| Storage.DriveRoundTrip | static/js/storage.js:48-108 | saving remotely then loading gives back the saved overlay |
| Storage.DriveSaveLastWins | static/js/storage.js:83-105 | a second save that starts after the first has finished only replaces the content written by the first; no second file is created |
| Storage.SavedUserDataLoadsBack | static/js/storage.js:131-135 | the save goes to the remote store iff signed in with a folder, otherwise to the local slot, and loads back from there |
| Storage.SaveUserData | static/js/storage.js:131-135 | the method writes the overlay to the store it chooses and leaves the other untouched |
| Storage.LogoutForgetsSessionKeepsLocal | static/js/storage.js:124-128 | after logout no token is found, the folder slots are gone, and the local overlay loads as before |
| Storage.Logout | static/js/storage.js:119-129 | logout clears the account fields and the session slots, then reloads the overlay from the local copy or `{}` |
| Ui.MergedItems | static/js/ui.js:29-33 | the merge keeps length, order and every field but `owned`, which is true exactly when the overlay marks the item's key |
| Ui.Merged | static/js/ui.js:25-27 | with no catalog array the merge is `[]`; otherwise it has the catalog's length |
| Ui.MergeIdempotent | static/js/ui.js:29-33 | merging a merged list again gives it back: the catalog's own `owned` flags play no part |
| Ui.MergeData | static/js/ui.js:24-35 | the grid becomes the merge of the catalog with the overlay |
| Ui.FilteredIsSubsequence | static/js/ui.js:46-54 | the filter result is the subsequence at increasing kept positions, and a position is kept iff region, category and status all match |
| Ui.FilteredMembers | static/js/ui.js:48-53 | an item is in the filter result iff it is in the list and passes all three tests |
| Ui.FilterAllWildcards | static/js/ui.js:49-51 | with `全部`, `all`, `all` the filter returns the list unchanged |
| Ui.OwnedCountIsOwnedFilter | static/js/ui.js:56 | the owned counter is the length of the list filtered on `owned`, and at most the list's length |
| Ui.ToggleOwn | static/js/ui.js:60-64 | the item's `owned` is negated and the overlay entry of its key is set to the new value |
| Ui.ToggleFlipsOne | static/js/ui.js:61 | a toggle flips exactly that item's flag, keeps everything else, and toggling twice restores the list |
| Ui.ToggledOverlayOneKey | static/js/ui.js:62-64 | the overlay entry of the toggled key holds the new value, created if absent; every other key is unchanged |
| Ui.ToggleKeepsMerged | static/js/ui.js:29-64 | when no other item shares the key, the toggled grid is the merge of the catalog with the new overlay |
| Ui.ToggleSharedKeyDiverges | static/js/ui.js:60-64 | when another item shares the key, its shown flag differs from the new overlay until the next merge |
| Ui.RemergeSettlesSharedKey | static/js/main.js:102-109 | the re-merge after a toggle shows the new value on every item sharing the toggled key, and leaves every other item as shown |
| Ui.ToggleWatched | static/js/main.js:102-109 | a toggle followed by the deep watcher's `mergeData` leaves the grid equal to the catalog merged with the toggled overlay |
| Ui.ToggleMovesCountByOne | static/js/ui.js:56-61 | a toggle moves the owned counter by exactly one, down for an owned item and up otherwise |
| Ui.ResetClearsOwned | static/js/ui.js:165-170 | after a confirmed reset no merged item is owned, the counter is 0, and the chosen store loads back `{}` |
| Ui.ResetSelections | static/js/ui.js:165-170 | unconfirmed: nothing changes; confirmed: the overlay is `{}`, the grid re-merged, and the empty overlay saved |
| Ui.UpdateModalContent | static/js/ui.js:173-182 | the viewer shows the visible item at the index (image, name, `region \| category`), and is unchanged when there is none |
| Ui.ModalIndexStaysInRange | static/js/ui.js:185-186 | next and previous move the index by at most one, never below 0, and keep an in-range index within the visible list; the moves undo each other |
| Ui.NextImage | static/js/ui.js:185 | the index advances only when not at the last visible item; after a move to an index with an item the viewer shows it (image, name, `region \| category`), otherwise image, title, subtitle and item are unchanged |
| Ui.PrevImage | static/js/ui.js:186 | the index goes back only when above 0; after a move to an index with an item the viewer shows it (image, name, `region \| category`), otherwise image, title, subtitle and item are unchanged |
| Ui.OpenImage | static/js/ui.js:183 | the index is set and the viewer opened; it shows the item at that index (image, name, `region \| category`), or keeps its content when the index has no item |
| Ui.AutoUpdateAsWritten | static/js/ui.js:69-74 | as written, the catalog becomes the refresh reply's `data` field and is merged |
| Ui.AutoUpdateEmptiesList | static/js/ui.js:72-74 | as written, the grid after a refresh is empty and differs from the merge of any non-empty saved list |
| Ui.AutoUpdate | static/js/ui.js:69-74 | corrected: the catalog becomes the re-fetched saved list, merged with the overlay |
| Ui.AutoUpdateShowsSaved | static/js/ui.js:69-76 | corrected: the grid has `total` entries in the saved order, with the user's ownership restored |
| Ui.ShowFixedRegions | static/js/ui.js:85-87 | after fixing regions the catalog becomes the returned list, merged with the overlay |
| Markers.SameFixedIsClose | static/js/ui.js:232 | two coordinates with the same `toFixed(5)` text are less than 1e-5 apart |
| Markers.AdditionsCount | static/js/ui.js:240-252 | grouping fails exactly when an item placed at its own position lacks a coordinate; otherwise a fanned-out item is added 12 times and any other once |
| Markers.AdditionsContain | static/js/ui.js:240-252 | every addition an item makes is among the additions of the walk |
| Markers.ItemsPlaced | static/js/ui.js:241-251 | an airport item of `其他` is a member, with its index, of each of the 12 airport pins; any other item is a member of its own coordinates' pin |
| Markers.MembershipCount | static/js/ui.js:189-252 | total memberships over all pins = 12 × fanned-out items + other items |
| Markers.GroupedFaithful | static/js/ui.js:231-237 | pins have distinct keys, each addition's member is in its key's pin, and a pin's position and label come from the first addition with its key, which is also its first member |
| Markers.BuildLocationGroups | static/js/ui.js:228-252 | the nested grouping loops build exactly the specified pins, or fail as specified |
| Markers.AddAtAirports | static/js/ui.js:245-248 | the inner loop adds the item once per airport, in airport order |
| Markers.ColourTrichotomy | static/js/ui.js:257-262 | a pin is green iff every member is owned, yellow iff some but not all are, pink iff none is |
| Markers.FaceRule | static/js/ui.js:265-270 | a pin with several members shows their count; a single member shows its own image, or its own emoji when it has no image |

## Left out

- Rendering: Leaflet map creation, icon and popup HTML, the DOM-id click wiring, and `initMap`. Only the grouping, colour and face decisions are modelled.
- Network and SDK calls (`apiCall`/`fetch`, `gapi.client.*`, Google sign-in, token revocation and the Picker) are below the model. Each outcome is a `Net` parameter, or the reply that came back.
- `fetchUserProfile`, `deletePublicData`, `importUserData`, `importPublicData`, the export downloads, `closeModal` and `toggleModalItem` are user-interface plumbing around the modelled operations and are not modelled.
- `progressPercentage`: floating-point division, not modelled.
- The 1000 ms debounce of `toggleOwn` is timing, not modelled. `Ui.ToggleOwn` does not schedule the save; `Storage.SaveUserData` is the save it would run.
- The concurrency of services/crawler.py's thread pool is not modelled: only its order-preserving result is.
- Firebase and services/database.py are not modelled: the database is the list passed in and returned.
- Nominatim geocoding is a parameter function, and `time.sleep` is left out.
- The HTTP fetch and HTML parsing of the crawlers are left out: a page is its status and its links.
- services/location.py is not part of this model. routes.py and services/crawler.py take its tables and `apply_region_logic` as parameters. The routes members assume (`EnvValid`) that its `REGION_COORDS` table has an entry for `其他`: routes.py:77 reads `REGION_COORDS["其他"]` on every automatic placement that no spot name decides, and the source raises a KeyError without it.
- ServerRoutes.InheritanceBeatsAutomatic, ServerRoutes.RoutesRefreshOne and ServerRoutes.RefreshItem do not keep a present but empty old region. routes.py:58 reads `old_item.get('region', final_item['region'])`, which passes on an old `"region": ""` and falls back to the crawled region only when the key is absent. An absent region is the empty string here, so the model falls back to the crawled region in both cases.
- `random.random()` draws are parameters in [0, 1). IEEE rounding of coordinates, of the jitter and of `toFixed` is not modelled: the reals are exact.
- JSON values other than the modelled ones are not modelled: lists or numbers as an overlay, items with a missing `name` key (a KeyError at app.py:296 or routes.py:33), or a non-object `userStatus` entry.
- ServerApp.ImportOne and ServerApp.ImportData do not model the KeyError of app.py:306-307 when a posted item without a `region` key reuses an old item's coordinates (or the old item has no `region` key and the posted region is `其他`): the source then answers 500 and saves nothing, while the model imports the item. An absent region is the empty string here, so the model cannot tell the two apart.
- ServerApp.ReusesOld does not model a stored `"lat": null` or `"lng": null`: app.py:304 tests only that the keys exist, so the source reuses the null coordinates, while the model reads null as absent and geocodes again.
- Storage.DriveSaveLastWins holds only for saves that do not overlap. `saveUserData` (static/js/storage.js:131-135) does not wait for `saveToDrive`, whose list-then-create steps (static/js/storage.js:70-105) can interleave with a second save, such as the debounced toggle save and a reset; both may then find no file and create two. Interleaving is not modelled.
- The deep watch on `userStatus` (static/js/main.js:102-109) is modelled only for a toggle, by Ui.ToggleWatched. Vue's scheduling of the watcher is not modelled. The watcher runs before the next render, so the state Ui.ToggleSharedKeyDiverges describes lies between `toggleOwn` and the re-merge and does not reach the screen. The watcher's re-merge after a load or a logout is not modelled either.
- Server responses other than the data they carry are not modelled: HTTP status codes apart from the import's 400/500, messages and alerts.
- The aliasing between `filteredItems`, `modalItem` and `items` is not modelled: toggling is by position in `items`.
- The viewer's initial `modalItem` is the truthy `{}` in static/js/main.js:19; the model starts it as absent.

Behaviours of the source the model keeps as written:

- app.py `import_data` copies the old region at lines 306-307, but line 327 always overwrites it, so the copy has no effect. `ServerApp.ImportOneRules` states the recomputed region.
- Both refreshes save whatever the crawl returned. An empty crawl, for example when the site is unreachable, empties the catalog.
- routes.py `refresh_data` sets no `owned` flag on the rebuilt items; ownership lives only in the users' overlays. `ServerRoutes.RoutesRefreshOneShape` states `!owned`.

## Findings

| source | as written | input that shows it | evidently intended | confidence | as-written member | corrected member |
|---|---|---|---|---|---|---|
| static/js/ui.js:72-74 | `autoUpdate` sets the catalog to `res.data`. Neither `/api/refresh` (routes.py:91-92, app.py:400-401) returns a `data` field, so `mergeData` sees no array and the grid becomes `[]` | any refresh reply `{"status": "success", "total": n}` with n > 0 | fetch the saved catalog again after the refresh, as `importPublicData` does, so the grid shows the n refreshed items with the user's ownership | not executed | Ui.AutoUpdateAsWritten, Ui.AutoUpdateEmptiesList | Ui.AutoUpdate, Ui.AutoUpdateShowsSaved |
