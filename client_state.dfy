/**
 * The browser side's state: the reactive `appState` object the Vue app shares
 * between storage.js and ui.js (static/js/main.js), the page's localStorage and
 * the user's remote file store.
 *
 * Stored JSON text is modelled by what parsing it gives back: a session record,
 * an ownership overlay, or text that does not parse as JSON.
 */
module ClientState {
  import opened Common
  import opened Catalog

  /** `userStatus`: per item key, whether the entry's `owned` flag is truthy. */
  type Overlay = map<string, bool>

  /** The token response Google's sign-in hands over: the access token and its lifetime
      in seconds. */
  datatype TokenResponse = TokenResponse(accessToken: string, expiresIn: int)

  /** The text of a localStorage slot or of a stored file, by what `JSON.parse` makes of it. */
  datatype Text =
    | SessionJson(token: TokenResponse, expiry: int)
    | OverlayJson(overlay: Overlay)
    | Raw(text: string)

  /** A file of the remote store, with the metadata the save file is searched by. */
  datatype DriveFile = DriveFile(name: string, parents: seq<string>, trashed: bool, content: Text)

  /** The page's localStorage: slot name to stored text. */
  class LocalStorage {
    var slots: map<string, Text>

    constructor(initial: map<string, Text>)
      ensures slots == initial
    {
      slots := initial;
    }
  }

  /** The user's remote file store, in the order a file query lists its files. */
  class Drive {
    var files: seq<DriveFile>

    constructor(initial: seq<DriveFile>)
      ensures files == initial
    {
      files := initial;
    }
  }

  /** The fields of `appState` that storage.js and ui.js read and write. A public list
      that is not an array is None. */
  class AppState {
    var publicItems: Option<seq<Item>>
    var userStatus: Overlay
    var items: seq<Item>
    var selectedRegion: string
    var selectedCategory: string
    var statusFilter: string
    var showModal: bool
    var currentModalIndex: int
    var modalItem: Option<Item>
    var modalImage: string
    var modalTitle: string
    var modalSubtitle: string
    var isLoggedIn: bool
    var isAdmin: bool
    var userName: string
    var userAvatar: string
    var folderName: string
    var folderId: string

    /** The state the page starts in: nothing loaded, every filter a wildcard, signed out. */
    constructor()
      ensures publicItems == Some([]) && userStatus == map[] && items == []
      ensures selectedRegion == "全部" && selectedCategory == "all" && statusFilter == "all"
      ensures !showModal && currentModalIndex == 0 && modalItem.None?
      ensures modalImage == "" && modalTitle == "" && modalSubtitle == ""
      ensures !isLoggedIn && !isAdmin && userName == "" && userAvatar == "" && folderName == "" && folderId == ""
    {
      publicItems := Some([]);
      userStatus := map[];
      items := [];
      selectedRegion := "全部";
      selectedCategory := "all";
      statusFilter := "all";
      showModal := false;
      currentModalIndex := 0;
      modalItem := None;
      modalImage := "";
      modalTitle := "";
      modalSubtitle := "";
      isLoggedIn := false;
      isAdmin := false;
      userName := "";
      userAvatar := "";
      folderName := "";
      folderId := "";
    }
  }
}
