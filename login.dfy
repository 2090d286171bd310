/**
  The login page: choosing a participant, signing in with a PIN (optionally renaming
  the horse), first-time registration, the administrator's PIN reset and logging out.
  The data store and the browser session are modelled as fields: `writes` records
  every write sent to the store, `session` stands for the saved current user.
*/
module Login {
  import opened Common
  import opened Types
  import opened Sorting

  /** The administrator code that opens the reset-all-PINs dialog instead of signing in. */
  const MasterPin: string := "1155"

  /** The PIN of a participant who has not registered yet. */
  const InitialPin: string := "0000"

  /** The characters the horse-name pattern admits: katakana ァ to ヶ and the long-vowel mark ー. */
  predicate IsKatakana(c: char) { 'ァ' <= c <= 'ヶ' || c == 'ー' }

  /** A horse name is two to nine of those characters. */
  predicate IsHorseName(s: string) {
    2 <= |s| <= 9 && forall i :: 0 <= i < |s| ==> IsKatakana(s[i])
  }

  /** A PIN is exactly four ASCII digits. */
  predicate IsFourDigits(s: string) { |s| == 4 && AllDigits(s) }

  datatype Mode = LoginMode | RegisterMode

  /** A participant still holding the initial PIN must register; everyone else signs in. */
  function ModeFor(u: User): (m: Mode)
    ensures m == RegisterMode <==> u.pin == InitialPin
  {
    if u.pin == InitialPin then RegisterMode else LoginMode
  }

  /** What signing in does with the chosen participant, the typed PIN and the name field. */
  datatype LoginResult = NoUser | ResetPrompt | NameRejected | WrongPin | SignedIn(user: User, renamed: bool)

  function LoginStep(selected: Option<User>, pin: string, editName: string): (r: LoginResult)
    ensures r == NoUser <==> selected.None?
    ensures selected.Some? ==> (r == ResetPrompt <==> pin == MasterPin)
    ensures r == WrongPin <==> selected.Some? && pin != MasterPin && pin != selected.value.pin
    ensures r == NameRejected <==>
      selected.Some? && pin != MasterPin && pin == selected.value.pin
      && editName != selected.value.name && !IsHorseName(editName)
    ensures r.SignedIn? <==>
      selected.Some? && pin != MasterPin && pin == selected.value.pin
      && (editName == selected.value.name || IsHorseName(editName))
    ensures r.SignedIn? ==>
      r.user == selected.value.(name := editName) && (r.renamed <==> editName != selected.value.name)
  {
    match selected
    case None => NoUser
    case Some(u) =>
      if pin == MasterPin then ResetPrompt
      else if pin != u.pin then WrongPin
      else if editName != u.name && !IsHorseName(editName) then NameRejected
      else SignedIn(u.(name := editName), editName != u.name)
  }

  /** The registration checks, in the order they are made. */
  datatype RegisterCheck = BadName | BadPinFormat | ForbiddenPin | ReadyToConfirm

  function CheckRegistration(editName: string, newPin: string): (c: RegisterCheck)
    ensures c == BadName <==> !IsHorseName(editName)
    ensures c == BadPinFormat <==> IsHorseName(editName) && !IsFourDigits(newPin)
    ensures c == ForbiddenPin <==> IsHorseName(editName) && IsFourDigits(newPin) && newPin == InitialPin
    ensures c == ReadyToConfirm <==> IsHorseName(editName) && IsFourDigits(newPin) && newPin != InitialPin
  {
    if !IsHorseName(editName) then BadName
    else if !IsFourDigits(newPin) then BadPinFormat
    else if newPin == InitialPin then ForbiddenPin
    else ReadyToConfirm
  }

  /** The numeric value of an id; ids that are not digit strings have no defined place in the order. */
  function NumericId(u: User): int {
    if AllDigits(u.id) then DigitsValue(u.id) else 0
  }

  predicate DigitIds(users: seq<User>) { forall u :: u in users ==> AllDigits(u.id) }

  /** The participant list of this page, in ascending numeric id order. */
  function SortByNumericId(users: seq<User>): (r: seq<User>)
    ensures multiset(r) == multiset(users) && |r| == |users|
    ensures DigitIds(users) ==> DigitIds(r) && forall i, j :: 0 <= i < j < |r| ==> DigitsValue(r[i].id) <= DigitsValue(r[j].id)
  {
    var r := SortByKey(users, NumericId);
    if DigitIds(users) then NumericOrder(users, r); r else r
  }

  lemma NumericOrder(users: seq<User>, r: seq<User>)
    requires multiset(r) == multiset(users) && SortedByKey(r, NumericId)
    requires DigitIds(users)
    ensures DigitIds(r)
    ensures forall i, j :: 0 <= i < j < |r| ==> DigitsValue(r[i].id) <= DigitsValue(r[j].id)
  {
    forall u | u in r ensures AllDigits(u.id) {
      assert u in multiset(users);
    }
    forall i, j | 0 <= i < j < |r| ensures DigitsValue(r[i].id) <= DigitsValue(r[j].id) {
      assert r[i] in r && r[j] in r;
      assert NumericId(r[i]) <= NumericId(r[j]);
    }
  }

  /** A write sent to the data store. */
  datatype StoreWrite = PinWrite(userId: string, pin: string) | NameWrite(userId: string, name: string)

  /**
    The dialog on screen. A confirmation carries the values its handler captured when
    it was opened: the participant list to reset, or the participant, name and PIN to register.
  */
  datatype Dialog =
    | NoDialog
    | NameError
    | PinFormatError
    | ForbiddenPinError
    | ConfirmReset(targets: seq<User>)
    | ResetDone
    | ConfirmRegister(user: User, name: string, newPin: string)

  /** The PIN writes of the reset: every listed participant back to the initial PIN, in list order. */
  function ResetWrites(users: seq<User>): (ws: seq<StoreWrite>)
    ensures |ws| == |users|
    ensures forall i :: 0 <= i < |users| ==> ws[i] == PinWrite(users[i].id, InitialPin)
  {
    if |users| == 0 then [] else [PinWrite(users[0].id, InitialPin)] + ResetWrites(users[1..])
  }

  /** The writes of a registration: the new PIN, and the name when it was changed. */
  function RegisterWrites(u: User, name: string, newPin: string): (ws: seq<StoreWrite>)
    ensures |ws| == (if name != u.name then 2 else 1)
    ensures ws[0] == PinWrite(u.id, newPin)
    ensures name != u.name ==> ws[1] == NameWrite(u.id, name)
  {
    [PinWrite(u.id, newPin)] + (if name != u.name then [NameWrite(u.id, name)] else [])
  }

  /** The store only receives the initial PIN (from the reset), registrable PINs and valid horse names. */
  predicate AcceptableWrite(w: StoreWrite) {
    match w
    case PinWrite(_, p) => p == InitialPin || (IsFourDigits(p) && p != InitialPin)
    case NameWrite(_, n) => IsHorseName(n)
  }

  lemma ResetWritesAreAcceptable(users: seq<User>)
    ensures forall w :: w in ResetWrites(users) ==> AcceptableWrite(w)
  {
  }

  /** A registration the checks let through only sends acceptable writes. */
  lemma RegisterWritesAreAcceptable(u: User, name: string, newPin: string)
    requires CheckRegistration(name, newPin) == ReadyToConfirm
    ensures forall w :: w in RegisterWrites(u, name, newPin) ==> AcceptableWrite(w)
  {
    var ws := RegisterWrites(u, name, newPin);
    forall w | w in ws ensures AcceptableWrite(w) {
      var k :| 0 <= k < |ws| && ws[k] == w;
    }
  }

  /** The fixture's horse names all satisfy the pattern, so a participant can keep their name. */
  lemma FixtureNamesAreHorseNames()
    ensures IsHorseName("ウグイスバレー") && IsHorseName("キンパチティーチャ") && IsHorseName("ツチサカ")
    ensures !IsHorseName("ア") && !IsHorseName("ウグイス1") && !IsHorseName("うぐいす")
    ensures !IsHorseName("ウグイスバレーウグイス")
  {
    assert !IsKatakana("ウグイス1"[4]);
    assert !IsKatakana("うぐいす"[0]);
  }

  class LoginPage {
    var users: seq<User>
    var currentUser: Option<User>
    var selectedUserId: string
    var editName: string
    var pin: string
    var newPin: string
    var error: bool
    var mode: Mode
    var loading: bool
    var modal: Dialog
    /** The saved current user of the browser session. */
    var session: Option<User>
    /** Every write sent to the data store, oldest first. */
    var writes: seq<StoreWrite>
    /** Set when the page asks to go to the leaderboard. */
    var navigatedHome: bool
    /** Set when the page asks the browser to reload. */
    var reloadRequested: bool

    /**
      The page's invariant: a signed-in user is always the one saved in the session,
      a pending registration has passed every check, and the store has only ever
      received acceptable writes.
    */
    predicate Valid()
      reads this
    {
      (currentUser.Some? ==> session == currentUser)
      && (modal.ConfirmRegister? ==> CheckRegistration(modal.name, modal.newPin) == ReadyToConfirm)
      && (forall w :: w in writes ==> AcceptableWrite(w))
    }

    /** The page as first rendered, with whatever session the browser has saved. */
    constructor (saved: Option<User>)
      ensures Valid()
      ensures users == [] && currentUser == None && selectedUserId == "" && editName == ""
      ensures pin == "" && newPin == "" && !error && mode == LoginMode && !loading
      ensures modal == NoDialog && session == saved && writes == []
      ensures !navigatedHome && !reloadRequested
    {
      users := [];
      currentUser := None;
      selectedUserId := "";
      editName := "";
      pin := "";
      newPin := "";
      error := false;
      mode := LoginMode;
      loading := false;
      modal := NoDialog;
      session := saved;
      writes := [];
      navigatedHome := false;
      reloadRequested := false;
    }

    /** The participant chosen in the drop-down, if the list has one with that id. */
    function SelectedUser(): (u: Option<User>)
      reads this
      ensures u == FindUser(users, selectedUserId)
    {
      FindUser(users, selectedUserId)
    }

    /** The data arrives: the list is sorted by id, and a saved session preselects its user. */
    method LoadData(fetched: seq<User>)
      requires Valid()
      modifies this`users, this`currentUser, this`selectedUserId, this`editName, this`mode
      ensures Valid()
      ensures users == SortByNumericId(fetched)
      ensures old(session).Some? ==>
        currentUser == old(session) && selectedUserId == old(session).value.id
        && editName == old(session).value.name && mode == LoginMode
      ensures old(session).None? ==>
        unchanged(this`currentUser, this`selectedUserId, this`editName, this`mode)
    {
      users := SortByNumericId(fetched);
      if session.Some? {
        currentUser := session;
        selectedUserId := session.value.id;
        editName := session.value.name;
        mode := LoginMode;
      }
    }

    /**
      A participant is chosen: the PIN fields and the error are cleared; a known id
      fills in the name and picks registration for a participant still on the initial PIN.
    */
    method HandleUserSelect(userId: string)
      requires Valid()
      modifies this`selectedUserId, this`pin, this`newPin, this`error, this`editName, this`mode
      ensures Valid()
      ensures selectedUserId == userId && pin == "" && newPin == "" && !error
      ensures FindUser(users, userId).Some? ==>
        editName == FindUser(users, userId).value.name && mode == ModeFor(FindUser(users, userId).value)
      ensures FindUser(users, userId).None? ==> unchanged(this`editName, this`mode)
    {
      selectedUserId := userId;
      pin := "";
      newPin := "";
      error := false;
      var user := FindUser(users, userId);
      if user.Some? {
        editName := user.value.name;
        mode := ModeFor(user.value);
      }
    }

    /**
      The sign-in button. The master code opens the reset dialog before the PIN is
      compared; a matching PIN signs in, renaming the participant in the list and in
      the store when the name was changed to a valid one; a wrong PIN only raises the error.
    */
    method HandleLogin()
      requires Valid()
      requires !loading && mode == LoginMode  // the sign-in button shows in login mode and is disabled while loading
      modifies this`users, this`currentUser, this`session, this`writes, this`loading, this`modal
      modifies this`error, this`navigatedHome
      ensures Valid()
      ensures match LoginStep(old(SelectedUser()), old(pin), old(editName))
        case NoUser => unchanged(this)
        case ResetPrompt =>
          modal == ConfirmReset(old(users)) && loading
          && unchanged(this`users, this`currentUser, this`session, this`writes, this`error, this`navigatedHome)
        case NameRejected =>
          modal == NameError && !loading
          && unchanged(this`users, this`currentUser, this`session, this`writes, this`error, this`navigatedHome)
        case WrongPin =>
          error && !loading
          && unchanged(this`users, this`currentUser, this`session, this`writes, this`modal, this`navigatedHome)
        case SignedIn(u, renamed) =>
          currentUser == Some(u) && session == Some(u) && navigatedHome && loading
          && unchanged(this`modal, this`error)
          && writes == old(writes) + (if renamed then [NameWrite(u.id, u.name)] else [])
          && users == (if renamed then old(users)[IndexOfUser(old(users), old(selectedUserId)) := u] else old(users))
    {
      var r := LoginStep(SelectedUser(), pin, editName);
      match r {
        case NoUser =>
        case ResetPrompt =>
          loading := true;
          modal := ConfirmReset(users);
        case NameRejected =>
          modal := NameError;
          loading := false;
        case WrongPin =>
          error := true;
          loading := false;
        case SignedIn(u, renamed) =>
          assert renamed ==> IsHorseName(u.name) && IndexOfUser(users, selectedUserId) >= 0 by {
            FindUserAtIndex(users, selectedUserId);
          }
          SignIn(u, renamed);
      }
    }

    /** A successful sign-in: a renamed participant is renamed in the store and in the list. */
    method SignIn(u: User, renamed: bool)
      requires Valid()
      requires renamed ==> IsHorseName(u.name) && IndexOfUser(users, selectedUserId) >= 0
      modifies this`loading, this`writes, this`users, this`session, this`currentUser, this`navigatedHome
      ensures Valid()
      ensures currentUser == Some(u) && session == Some(u) && navigatedHome && loading
      ensures writes == old(writes) + (if renamed then [NameWrite(u.id, u.name)] else [])
      ensures users == (if renamed then old(users)[IndexOfUser(old(users), selectedUserId) := u] else old(users))
    {
      loading := true;
      if renamed {
        writes := writes + [NameWrite(u.id, u.name)];
        users := users[IndexOfUser(users, selectedUserId) := u];
      }
      session := Some(u);
      currentUser := Some(u);
      navigatedHome := true;
    }

    /**
      The register button: the name, the PIN format and the forbidden initial PIN are
      checked in that order, each failure showing its own error; only when all pass
      does the confirmation open, holding the values to register.
    */
    method HandleRegister()
      requires Valid()
      requires !loading && mode == RegisterMode  // the register button shows in register mode and is disabled while loading
      modifies this`modal
      ensures Valid()
      ensures old(SelectedUser()).None? ==> modal == old(modal)
      ensures old(SelectedUser()).Some? ==>
        modal == match CheckRegistration(old(editName), old(newPin))
          case BadName => NameError
          case BadPinFormat => PinFormatError
          case ForbiddenPin => ForbiddenPinError
          case ReadyToConfirm => ConfirmRegister(old(SelectedUser()).value, old(editName), old(newPin))
    {
      var selected := SelectedUser();
      if selected.Some? {
        match CheckRegistration(editName, newPin) {
          case BadName => modal := NameError;
          case BadPinFormat => modal := PinFormatError;
          case ForbiddenPin => modal := ForbiddenPinError;
          case ReadyToConfirm => modal := ConfirmRegister(selected.value, editName, newPin);
        }
      }
    }

    /**
      The dialog's confirm button. An error is dismissed; the reset sends the initial
      PIN for every participant it captured and reports completion, whose confirmation
      reloads the page; a registration closes the dialog and is carried out.
    */
    method ConfirmModal()
      requires Valid()
      modifies this`modal, this`writes, this`reloadRequested, this`currentUser, this`session
      modifies this`loading, this`navigatedHome
      ensures Valid()
      ensures match old(modal)
        case NoDialog => unchanged(this)
        case NameError => modal == NoDialog && unchanged(this`writes)
        case PinFormatError => modal == NoDialog && unchanged(this`writes)
        case ForbiddenPinError => modal == NoDialog && unchanged(this`writes)
        case ConfirmReset(targets) => modal == ResetDone && writes == old(writes) + ResetWrites(targets)
        case ResetDone => reloadRequested && unchanged(this`modal, this`writes)
        case ConfirmRegister(u, name, p) =>
          modal == NoDialog && writes == old(writes) + RegisterWrites(u, name, p)
          && currentUser == Some(u.(name := name, pin := p)) && session == currentUser
          && loading && navigatedHome
      ensures !old(modal).ConfirmRegister? ==> unchanged(this`currentUser, this`session, this`loading, this`navigatedHome)
      ensures !old(modal).ResetDone? ==> unchanged(this`reloadRequested)
    {
      match modal {
        case NoDialog =>
        case NameError => modal := NoDialog;
        case PinFormatError => modal := NoDialog;
        case ForbiddenPinError => modal := NoDialog;
        case ConfirmReset(targets) =>
          ResetWritesAreAcceptable(targets);
          writes := writes + ResetWrites(targets);
          modal := ResetDone;
        case ResetDone =>
          reloadRequested := true;
        case ConfirmRegister(u, name, p) =>
          modal := NoDialog;
          PerformRegister(u, name, p);
      }
    }

    /** Registration proper: the store gets the PIN (and a changed name), and the participant is signed in. */
    method PerformRegister(u: User, name: string, p: string)
      requires Valid()
      requires CheckRegistration(name, p) == ReadyToConfirm
      modifies this`loading, this`writes, this`session, this`currentUser, this`navigatedHome
      ensures Valid()
      ensures writes == old(writes) + RegisterWrites(u, name, p)
      ensures currentUser == Some(u.(name := name, pin := p)) && session == currentUser
      ensures loading && navigatedHome
    {
      loading := true;
      RegisterWritesAreAcceptable(u, name, p);
      writes := writes + RegisterWrites(u, name, p);
      var updated := u.(name := name, pin := p);
      session := Some(updated);
      currentUser := Some(updated);
      navigatedHome := true;
    }

    /** The dialog's cancel button (or its backdrop) closes it; only the two confirmations have one. */
    method CancelModal()
      requires Valid()
      requires modal.ConfirmReset? || modal.ConfirmRegister?
      modifies this`modal
      ensures Valid()
      ensures modal == NoDialog
    {
      modal := NoDialog;
    }

    /** Logging out forgets the session and the selection and returns to sign-in mode. */
    method HandleLogout()
      requires Valid()
      requires currentUser.Some?  // the logout button shows only while signed in
      modifies this`session, this`currentUser, this`selectedUserId, this`pin, this`editName, this`mode
      ensures Valid()
      ensures session == None && currentUser == None && selectedUserId == "" && pin == "" && editName == ""
      ensures mode == LoginMode
    {
      session := None;
      currentUser := None;
      selectedUserId := "";
      pin := "";
      editName := "";
      mode := LoginMode;
    }
  }
}
