/**
 * static/js/storage.js: the session-token slot, the local copy of the ownership
 * overlay, the save file in the user's remote folder, the choice between the two
 * stores, and logging out. The clock is a parameter (`now`, in milliseconds);
 * every remote request's outcome is a `Net` parameter, and a failure is caught,
 * leaving everything as it was.
 */
module Storage {
  import opened Common
  import opened ClientState

  const TokenSlot := "google_access_token"
  const UserSaveSlot := "chiikawa_user_save"
  const FolderIdSlot := "drive_folder_id"
  const FolderNameSlot := "drive_folder_name"
  const UserSaveFileName := "chiikawa_user_save.json"

  /** A token is treated as expired one minute before Google says it is. */
  const ExpiryMarginMs := 60000

  // ---------------------------------------------------------------- session token

  /** The moment, in milliseconds, after which a token saved at `now` is no longer used. */
  function Expiry(now: int, tr: TokenResponse): int
  {
    now + tr.expiresIn * 1000 - ExpiryMarginMs
  }

  /** The slots after `saveGoogleToken`. */
  function SavedToken(slots: map<string, Text>, now: int, tr: TokenResponse): map<string, Text>
  {
    slots[TokenSlot := SessionJson(tr, Expiry(now, tr))]
  }

  /** `saveGoogleToken`: overwrites the token slot with the token and its expiry. */
  method SaveGoogleToken(ls: LocalStorage, now: int, tr: TokenResponse)
    modifies ls
    ensures ls.slots == SavedToken(old(ls.slots), now, tr)
  {
    var sessionData := SessionJson(tr, now + tr.expiresIn * 1000 - ExpiryMarginMs);
    ls.slots := ls.slots[TokenSlot := sessionData];
  }

  /** What `loadGoogleToken` answers and the slots it leaves. */
  datatype TokenRead = TokenRead(token: Option<TokenResponse>, slots: map<string, Text>)

  /** An empty slot or unparsable text gives no token and changes nothing; a parsed record
      gives its token before its expiry and is evicted from then on (a record without an
      expiry compares as expired). */
  function ReadToken(slots: map<string, Text>, now: int): TokenRead
  {
    if TokenSlot !in slots || slots[TokenSlot] == Raw("") then TokenRead(None, slots)
    else match slots[TokenSlot]
      case Raw(_) => TokenRead(None, slots)
      case SessionJson(token, expiry) =>
        if now < expiry then TokenRead(Some(token), slots) else TokenRead(None, slots - {TokenSlot})
      case OverlayJson(_) => TokenRead(None, slots - {TokenSlot})
  }

  /** `loadGoogleToken`. */
  method LoadGoogleToken(ls: LocalStorage, now: int) returns (token: Option<TokenResponse>)
    modifies ls
    ensures TokenRead(token, ls.slots) == ReadToken(old(ls.slots), now)
  {
    if TokenSlot !in ls.slots || ls.slots[TokenSlot] == Raw("") {
      return None;
    }
    var saved := ls.slots[TokenSlot];
    if saved.Raw? {
      return None;
    }
    if saved.SessionJson? && now < saved.expiry {
      return Some(saved.token);
    }
    ls.slots := ls.slots - {TokenSlot};
    return None;
  }

  /** A token comes back exactly when the slot holds a session record whose expiry is
      still ahead; the slot is removed exactly when it holds parsed JSON that is not such
      a record; no other slot is touched. */
  lemma ReadTokenOutcomes(slots: map<string, Text>, now: int)
    ensures ReadToken(slots, now).token.Some? <==>
      TokenSlot in slots && slots[TokenSlot].SessionJson? && now < slots[TokenSlot].expiry
    ensures ReadToken(slots, now).token.Some? ==> ReadToken(slots, now).token.value == slots[TokenSlot].token
    ensures ReadToken(slots, now).slots == slots || ReadToken(slots, now).slots == slots - {TokenSlot}
    ensures TokenSlot in ReadToken(slots, now).slots <==>
      TokenSlot in slots && (slots[TokenSlot].Raw? || (slots[TokenSlot].SessionJson? && now < slots[TokenSlot].expiry))
  {
  }

  /** A saved token is handed back until its expiry, with the slot kept. */
  lemma TokenValidBeforeExpiry(slots: map<string, Text>, now: int, tr: TokenResponse, later: int)
    requires later < Expiry(now, tr)
    ensures ReadToken(SavedToken(slots, now, tr), later) == TokenRead(Some(tr), SavedToken(slots, now, tr))
  {
  }

  /** From its expiry on, a saved token is refused and its slot evicted. */
  lemma TokenEvictedAtExpiry(slots: map<string, Text>, now: int, tr: TokenResponse, later: int)
    requires later >= Expiry(now, tr)
    ensures ReadToken(SavedToken(slots, now, tr), later) == TokenRead(None, slots - {TokenSlot})
  {
    assert SavedToken(slots, now, tr) - {TokenSlot} == slots - {TokenSlot};
  }

  /** A token that lives a minute or less is never handed back, not even at once. */
  lemma ShortTokenNeverUsed(slots: map<string, Text>, now: int, tr: TokenResponse, later: int)
    requires tr.expiresIn <= 60 && later >= now
    ensures ReadToken(SavedToken(slots, now, tr), later).token.None?
  {
  }

  // ---------------------------------------------------------------- local copy

  /** The object `JSON.parse` gives, read as an overlay (a key whose value has no truthy
      `owned` counts as not owned); None when the text does not parse. */
  function ParsedOverlay(t: Text): Option<Overlay>
  {
    match t
    case OverlayJson(o) => Some(o)
    case SessionJson(_, _) => Some(map["token" := false, "expiry" := false])
    case Raw(_) => None
  }

  /** `userStatus` after `loadFromLocal`: unchanged for an empty slot, the parsed overlay,
      or an empty overlay for text that does not parse. */
  function LocalLoad(slots: map<string, Text>, status: Overlay): Overlay
  {
    if UserSaveSlot !in slots || slots[UserSaveSlot] == Raw("") then status
    else match ParsedOverlay(slots[UserSaveSlot])
      case None => map[]
      case Some(o) => o
  }

  /** `loadFromLocal`. */
  method LoadFromLocal(st: AppState, ls: LocalStorage)
    modifies st`userStatus
    ensures st.userStatus == LocalLoad(ls.slots, old(st.userStatus))
  {
    if UserSaveSlot in ls.slots && ls.slots[UserSaveSlot] != Raw("") {
      var parsed := ParsedOverlay(ls.slots[UserSaveSlot]);
      if parsed.Some? {
        st.userStatus := parsed.value;
      } else {
        st.userStatus := map[];
      }
    }
  }

  /** `saveToLocal`. */
  method SaveToLocal(ls: LocalStorage, data: Overlay)
    modifies ls
    ensures ls.slots == old(ls.slots)[UserSaveSlot := OverlayJson(data)]
  {
    ls.slots := ls.slots[UserSaveSlot := OverlayJson(data)];
  }

  /** Saving locally and loading back gives the saved overlay, whatever was loaded before. */
  lemma LocalRoundTrip(slots: map<string, Text>, data: Overlay, status: Overlay)
    ensures LocalLoad(slots[UserSaveSlot := OverlayJson(data)], status) == data
  {
  }

  /** An empty slot leaves the overlay as it was; text that does not parse resets it. */
  lemma LocalLoadFailSoft(slots: map<string, Text>, status: Overlay)
    ensures UserSaveSlot !in slots ==> LocalLoad(slots, status) == status
    ensures UserSaveSlot in slots && slots[UserSaveSlot].Raw? && slots[UserSaveSlot].text != "" ==>
      LocalLoad(slots, status) == map[]
  {
  }

  // ---------------------------------------------------------------- remote save file

  /** The file query: a non-trashed file of that name inside the folder. */
  predicate IsUserSave(f: DriveFile, folderId: string)
  {
    folderId in f.parents && f.name == UserSaveFileName && !f.trashed
  }

  /** The position of the query's first result. */
  function FirstUserSave(files: seq<DriveFile>, folderId: string): (r: Option<nat>)
    ensures r.Some? ==> r.value < |files|
  {
    if |files| == 0 then None
    else if IsUserSave(files[0], folderId) then Some(0)
    else match FirstUserSave(files[1..], folderId)
      case None => None
      case Some(i) => Some(i + 1)
  }

  /** The query finds nothing exactly when no file matches, and otherwise the first match. */
  lemma {:induction false} FirstUserSaveFirst(files: seq<DriveFile>, folderId: string)
    ensures FirstUserSave(files, folderId).None? <==> forall i :: 0 <= i < |files| ==> !IsUserSave(files[i], folderId)
    ensures FirstUserSave(files, folderId).Some? ==>
      var r := FirstUserSave(files, folderId).value;
      && IsUserSave(files[r], folderId)
      && forall j :: 0 <= j < r ==> !IsUserSave(files[j], folderId)
  {
    if |files| > 0 && !IsUserSave(files[0], folderId) {
      FirstUserSaveFirst(files[1..], folderId);
      assert forall i :: 1 <= i < |files| ==> files[i] == files[1..][i - 1];
    }
  }

  /** The first match is determined by which files match, position by position. */
  lemma {:induction false} FirstUserSaveByMatches(files: seq<DriveFile>, other: seq<DriveFile>, folderId: string)
    requires |files| == |other|
    requires forall i :: 0 <= i < |files| ==> (IsUserSave(files[i], folderId) <==> IsUserSave(other[i], folderId))
    ensures FirstUserSave(files, folderId) == FirstUserSave(other, folderId)
  {
    if |files| > 0 && !IsUserSave(files[0], folderId) {
      FirstUserSaveByMatches(files[1..], other[1..], folderId);
    }
  }

  /** A downloaded file's overlay: its parsed content, or empty when there is none. */
  function DriveContent(t: Text): Overlay
  {
    match ParsedOverlay(t)
    case None => map[]
    case Some(o) => o
  }

  /** `userStatus` after `loadFromDrive`. */
  function DriveLoad(files: seq<DriveFile>, folderId: string, net: Net, status: Overlay): Overlay
  {
    if folderId == "" || net.Failed? then status
    else match FirstUserSave(files, folderId)
      case None => map[]
      case Some(i) => DriveContent(files[i].content)
  }

  /** The new save file `saveToDrive` creates in the folder. */
  function NewUserSave(folderId: string, data: Overlay): DriveFile
  {
    DriveFile(UserSaveFileName, [folderId], false, OverlayJson(data))
  }

  /** The store after `saveToDrive`. */
  function DriveSave(files: seq<DriveFile>, folderId: string, net: Net, data: Overlay): seq<DriveFile>
  {
    if folderId == "" || net.Failed? then files
    else match FirstUserSave(files, folderId)
      case Some(i) => files[i := files[i].(content := OverlayJson(data))]
      case None => files + [NewUserSave(folderId, data)]
  }

  /** `loadFromDrive`. */
  method LoadFromDrive(st: AppState, drive: Drive, net: Net)
    modifies st`userStatus
    ensures st.userStatus == DriveLoad(drive.files, st.folderId, net, old(st.userStatus))
  {
    if st.folderId == "" || net.Failed? {
      return;
    }
    var found := FirstUserSave(drive.files, st.folderId);
    if found.Some? {
      st.userStatus := DriveContent(drive.files[found.value].content);
    } else {
      st.userStatus := map[];
    }
  }

  /** `saveToDrive`: rewrites the first save file of the folder, or creates one in it. */
  method SaveToDrive(st: AppState, drive: Drive, data: Overlay, net: Net)
    modifies drive
    ensures drive.files == DriveSave(old(drive.files), st.folderId, net, data)
  {
    if st.folderId == "" || net.Failed? {
      return;
    }
    var found := FirstUserSave(drive.files, st.folderId);
    if found.Some? {
      var i := found.value;
      drive.files := drive.files[i := drive.files[i].(content := OverlayJson(data))];
    } else {
      drive.files := drive.files + [NewUserSave(st.folderId, data)];
    }
  }

  /** With a folder and a working connection, exactly one file changes: the first save
      file gets the new content, or a new save file is appended; every other file stays. */
  lemma DriveSaveTouchesOneFile(files: seq<DriveFile>, folderId: string, data: Overlay)
    requires folderId != ""
    ensures var after := DriveSave(files, folderId, Delivered, data);
      match FirstUserSave(files, folderId)
      case Some(i) =>
        && |after| == |files| && after[i] == files[i].(content := OverlayJson(data))
        && forall j :: 0 <= j < |files| && j != i ==> after[j] == files[j]
      case None =>
        && after[..|files|] == files && after[|files|] == NewUserSave(folderId, data) && |after| == |files| + 1
  {
  }

  /** After a successful save, the folder's first save file holds the saved overlay. */
  lemma DriveSaveFindsSaved(files: seq<DriveFile>, folderId: string, data: Overlay)
    requires folderId != ""
    ensures var after := DriveSave(files, folderId, Delivered, data);
      FirstUserSave(after, folderId).Some? && after[FirstUserSave(after, folderId).value].content == OverlayJson(data)
  {
    var after := DriveSave(files, folderId, Delivered, data);
    FirstUserSaveFirst(files, folderId);
    match FirstUserSave(files, folderId)
    case Some(i) =>
      FirstUserSaveByMatches(files, after, folderId);
    case None =>
      FirstUserSaveFirst(after, folderId);
      assert IsUserSave(after[|files|], folderId);
      assert forall j :: 0 <= j < |files| ==> after[j] == files[j];
  }

  /** Saving remotely and loading back gives the saved overlay. */
  lemma DriveRoundTrip(files: seq<DriveFile>, folderId: string, data: Overlay, status: Overlay)
    requires folderId != ""
    ensures DriveLoad(DriveSave(files, folderId, Delivered, data), folderId, Delivered, status) == data
  {
    DriveSaveFindsSaved(files, folderId, data);
  }

  /** A second save only replaces the first one's content: no second file is created. */
  lemma DriveSaveLastWins(files: seq<DriveFile>, folderId: string, first: Overlay, second: Overlay)
    requires folderId != ""
    ensures DriveSave(DriveSave(files, folderId, Delivered, first), folderId, Delivered, second)
         == DriveSave(files, folderId, Delivered, second)
  {
    var once := DriveSave(files, folderId, Delivered, first);
    FirstUserSaveFirst(files, folderId);
    match FirstUserSave(files, folderId)
    case Some(i) =>
      FirstUserSaveByMatches(files, once, folderId);
    case None =>
      FirstUserSaveFirst(once, folderId);
      assert IsUserSave(once[|files|], folderId);
      assert forall j :: 0 <= j < |files| ==> once[j] == files[j];
      assert FirstUserSave(once, folderId) == Some(|files|);
  }

  // ---------------------------------------------------------------- choosing the store

  /** The remote store is used when signed in with a folder chosen. */
  predicate UsesRemote(loggedIn: bool, folderId: string)
  {
    loggedIn && folderId != ""
  }

  /** Both stores after `saveUserData`. */
  datatype Stores = Stores(slots: map<string, Text>, files: seq<DriveFile>)

  function SavedUserData(loggedIn: bool, folderId: string, net: Net, status: Overlay, s: Stores): Stores
  {
    if UsesRemote(loggedIn, folderId) then s.(files := DriveSave(s.files, folderId, net, status))
    else s.(slots := s.slots[UserSaveSlot := OverlayJson(status)])
  }

  /** `saveUserData` writes to exactly one store, and what it writes loads back from that
      store (remotely, when the connection works). */
  lemma SavedUserDataLoadsBack(loggedIn: bool, folderId: string, net: Net, status: Overlay, s: Stores, before: Overlay)
    ensures var after := SavedUserData(loggedIn, folderId, net, status, s);
      && (UsesRemote(loggedIn, folderId) ==> after.slots == s.slots)
      && (UsesRemote(loggedIn, folderId) && net.Delivered? ==> DriveLoad(after.files, folderId, net, before) == status)
      && (!UsesRemote(loggedIn, folderId) ==> after.files == s.files && LocalLoad(after.slots, before) == status)
  {
    if UsesRemote(loggedIn, folderId) && net.Delivered? {
      DriveRoundTrip(s.files, folderId, status, before);
    }
  }

  /** `saveUserData`. */
  method SaveUserData(st: AppState, ls: LocalStorage, drive: Drive, net: Net)
    modifies ls, drive
    ensures Stores(ls.slots, drive.files)
         == SavedUserData(st.isLoggedIn, st.folderId, net, st.userStatus, Stores(old(ls.slots), old(drive.files)))
  {
    var data := st.userStatus;
    if st.isLoggedIn && st.folderId != "" {
      SaveToDrive(st, drive, data, net);
    } else {
      SaveToLocal(ls, data);
    }
  }

  // ---------------------------------------------------------------- logout

  /** The slots `logout` removes: the chosen folder and the session token. */
  function LoggedOutSlots(slots: map<string, Text>): map<string, Text>
  {
    slots - {FolderIdSlot, FolderNameSlot, TokenSlot}
  }

  /** After logout no token is found, and the local copy of the overlay is what it was. */
  lemma LogoutForgetsSessionKeepsLocal(slots: map<string, Text>, now: int, status: Overlay)
    ensures ReadToken(LoggedOutSlots(slots), now) == TokenRead(None, LoggedOutSlots(slots))
    ensures LocalLoad(LoggedOutSlots(slots), status) == LocalLoad(slots, status)
    ensures FolderIdSlot !in LoggedOutSlots(slots) && FolderNameSlot !in LoggedOutSlots(slots)
  {
  }

  /** `logout`: clears the account fields and the session slots, then reloads the overlay
      from the local copy (or leaves it empty). */
  method Logout(st: AppState, ls: LocalStorage)
    modifies st`isLoggedIn, st`userName, st`userAvatar, st`folderId, st`folderName, st`isAdmin, st`userStatus, ls
    ensures !st.isLoggedIn && !st.isAdmin
    ensures st.userName == "" && st.userAvatar == "" && st.folderId == "" && st.folderName == ""
    ensures ls.slots == LoggedOutSlots(old(ls.slots))
    ensures st.userStatus == LocalLoad(ls.slots, map[])
  {
    st.isLoggedIn := false;
    st.userName := "";
    st.userAvatar := "";
    st.folderId := "";
    st.folderName := "";
    st.isAdmin := false;
    st.userStatus := map[];
    ls.slots := ls.slots - {FolderIdSlot};
    ls.slots := ls.slots - {FolderNameSlot};
    ls.slots := ls.slots - {TokenSlot};
    assert ls.slots == LoggedOutSlots(old(ls.slots));
    LoadFromLocal(st, ls);
  }
}
