/**
  The bet-report form: choosing a participant (and proving it with their PIN when
  nobody is signed in on this device), picking the venue and race, and typing the
  two amounts. Submitting hands a draft to the page and asks the dialog to close.
*/
module BettingModal {
  import opened Common
  import opened Types
  import opened NameOrder
  import Mock

  /** The venue as the form's `toLowerCase()` of its name spells it. */
  function LowerName(loc: Location): (s: string)
    ensures |s| > 0
  {
    match loc
    case Kokura => "kokura"
    case Tokyo => "tokyo"
    case Hanshin => "hanshin"
  }

  /** The first race of the table held at that venue with that number. */
  function FindRaceAt(races: seq<Race>, loc: Location, num: int): (r: Option<Race>)
    ensures r.Some? ==> r.value in races && r.value.location == loc && r.value.raceNumber == num
    ensures r.None? <==> forall x :: x in races ==> !(x.location == loc && x.raceNumber == num)
  {
    if |races| == 0 then None
    else if races[0].location == loc && races[0].raceNumber == num then Some(races[0])
    else FindRaceAt(races[1..], loc, num)
  }

  lemma {:induction false} FindRaceAtIndex(races: seq<Race>, loc: Location, num: int, k: int)
    requires 0 <= k < |races| && races[k].location == loc && races[k].raceNumber == num
    requires forall j :: 0 <= j < k ==> !(races[j].location == loc && races[j].raceNumber == num)
    ensures FindRaceAt(races, loc, num) == Some(races[k])
  {
    if k > 0 {
      assert !(races[0].location == loc && races[0].raceNumber == num);
      FindRaceAtIndex(races[1..], loc, num, k - 1);
    }
  }

  /**
    The race id of the chosen venue and number: the table's id when the table has the
    race (and its id is not empty), otherwise the lower-case venue name and the number.
  */
  function RaceIdFor(races: seq<Race>, loc: Location, num: int): (id: string)
    ensures FindRaceAt(races, loc, num).Some? && |FindRaceAt(races, loc, num).value.id| > 0
      ==> id == FindRaceAt(races, loc, num).value.id
    ensures FindRaceAt(races, loc, num).Some? && |FindRaceAt(races, loc, num).value.id| == 0
      ==> id == LowerName(loc) + IntText(num)
    ensures FindRaceAt(races, loc, num).None? ==> id == LowerName(loc) + IntText(num)
  {
    match FindRaceAt(races, loc, num)
    case Some(r) => if |r.id| > 0 then r.id else LowerName(loc) + IntText(num)
    case None => LowerName(loc) + IntText(num)
  }

  /** The race numbers the form offers, one button each. */
  function RaceNumbers(): (ns: seq<int>)
    ensures |ns| == 12
    ensures forall n :: n in ns <==> 1 <= n <= 12
  {
    [1, 2, 3, 4, 5, 6, 7, 8, 9, 10, 11, 12]
  }

  /** The first table position of a venue's races. */
  function Base(loc: Location): int {
    match loc
    case Tokyo => 0
    case Hanshin => 12
    case Kokura => 24
  }

  lemma TableShape()
    ensures |Mock.MockRaces| == 36
    ensures forall j :: 0 <= j < 36 ==> Mock.MockRaces[j].raceNumber == j % 12 + 1
    ensures forall j :: 0 <= j < 36 ==> Base(Mock.MockRaces[j].location) == j - j % 12
    ensures forall j :: 0 <= j < 36 ==> |Mock.MockRaces[j].id| == 3
  {
    TableNumbers();
    TableVenues();
    TableIds();
  }

  /** The table lists each venue's races 1 to 12 in order. */
  lemma TableNumbers()
    ensures |Mock.MockRaces| == 36
    ensures forall j :: 0 <= j < 36 ==> Mock.MockRaces[j].raceNumber == j % 12 + 1
  {
  }

  /** The table holds Tokyo's races, then Hanshin's, then Kokura's. */
  lemma TableVenues()
    ensures |Mock.MockRaces| == 36
    ensures forall j :: 0 <= j < 36 ==> Base(Mock.MockRaces[j].location) == j - j % 12
  {
  }

  lemma TableIds()
    ensures |Mock.MockRaces| == 36
    ensures forall j :: 0 <= j < 36 ==> |Mock.MockRaces[j].id| == 3
  {
  }

  /** Every venue and number the form offers names a race of the table, so the fallback id is never used. */
  lemma OfferedRacesAreInTable(loc: Location, num: int)
    requires 1 <= num <= 12
    ensures FindRaceAt(Mock.MockRaces, loc, num) == Some(Mock.MockRaces[Base(loc) + num - 1])
    ensures RaceIdFor(Mock.MockRaces, loc, num) == Mock.MockRaces[Base(loc) + num - 1].id
  {
    TableShape();
    var k := Base(loc) + num - 1;
    assert Mock.MockRaces[k].location == loc by {
      assert Base(Mock.MockRaces[k].location) == Base(loc);
    }
    FindRaceAtIndex(Mock.MockRaces, loc, num, k);
  }

  /** The ids of the races of a table. */
  function RaceIds(races: seq<Race>): (ids: set<string>)
    ensures forall r :: r in races ==> r.id in ids
  {
    set r | r in races :: r.id
  }

  /** A table that every venue and offered race number finds, under a non-empty id. */
  ghost predicate OffersEveryRace(races: seq<Race>) {
    forall loc: Location, num: int :: 1 <= num <= 12 ==>
      FindRaceAt(races, loc, num).Some? && |FindRaceAt(races, loc, num).value.id| > 0
  }

  lemma MockTableOffersEveryRace()
    ensures OffersEveryRace(Mock.MockRaces)
  {
    forall loc: Location, num: int | 1 <= num <= 12
      ensures FindRaceAt(Mock.MockRaces, loc, num).Some? && |FindRaceAt(Mock.MockRaces, loc, num).value.id| > 0
    {
      OfferedRacesAreInTable(loc, num);
      TableShape();
    }
  }

  /** The form's starting choice, Kokura race 11, is the table's "k11". */
  lemma DefaultRaceId()
    ensures RaceIdFor(Mock.MockRaces, Kokura, 11) == "k11"
  {
    OfferedRacesAreInTable(Kokura, 11);
  }

  /** A string of digits, optionally signed. */
  predicate IsSignedDigits(s: string) {
    |s| > 1 && (s[0] == '-' || s[0] == '+') && AllDigits(s[1..])
  }

  /**
    `Number(s) || 0` for the amounts: a digit string gives its value (the empty string
    0), a signed one its signed value; a string with a comma is not a number and gives 0.
  */
  function Amount(s: string): (n: int)
    ensures AllDigits(s) ==> n == DigitsValue(s)
    ensures IsSignedDigits(s) && s[0] == '-' ==> n == 0 - DigitsValue(s[1..])
    ensures IsSignedDigits(s) && s[0] == '+' ==> n == DigitsValue(s[1..])
    ensures !AllDigits(s) && !IsSignedDigits(s) ==> n == 0
    ensures ',' in s ==> n == 0
  {
    if AllDigits(s) then DigitsValue(s)
    else if IsSignedDigits(s) then (if s[0] == '-' then 0 - DigitsValue(s[1..]) else DigitsValue(s[1..]))
    else
      0
  }

  /** Typing an amount as JavaScript prints it yields that amount back. */
  lemma AmountOfPrintedNumber(n: int)
    ensures Amount(IntText(n)) == n
  {
    if n < 0 {
      var s := IntText(n);
      assert s[1..] == NatToString(-n);
      assert !AllDigits(s) by { assert !IsDigit(s[0]); }
    }
  }

  /** A figure typed with a thousands separator counts as zero. */
  lemma GroupedFigureCountsZero()
    ensures Amount("300,000") == 0
  {
    assert "300,000"[3] == ',';
  }

  /** The draft a submission hands to the page. */
  function Draft(races: seq<Race>, u: User, loc: Location, num: int, investment: string, returnAmount: string): (d: BetDraft)
    ensures d.userId == u.id && d.raceId == RaceIdFor(races, loc, num)
    ensures d.investment == Amount(investment) && d.returnAmount == Amount(returnAmount)
  {
    BetDraft(u.id, RaceIdFor(races, loc, num), Amount(investment), Amount(returnAmount))
  }

  class BettingForm {
    /** The race table the form looks races up in. */
    const races: seq<Race>
    var users: seq<User>
    /** The participant signed in on this device, if any. */
    var currentUser: Option<User>
    /** The participant chosen in the drop-down. */
    var selectedUser: Option<User>
    var location: Location
    var raceNum: int
    var investment: string
    var returnAmount: string
    var guestPin: string
    var guestError: bool
    /** The drafts handed to the page, oldest first. */
    var submitted: seq<BetDraft>
    /** Set when the form asks to be closed. */
    var closeRequested: bool

    /**
      The race number is always one the form offers, the table has every offered race,
      and so every draft handed over names a race of the table.
    */
    ghost predicate Valid()
      reads this
    {
      1 <= raceNum <= 12
      && OffersEveryRace(races)
      && forall d :: d in submitted ==> d.raceId in RaceIds(races)
    }

    constructor ()
      ensures Valid()
      ensures races == Mock.MockRaces
      ensures users == Mock.MockUsers && currentUser == None && selectedUser == None
      ensures location == Kokura && raceNum == 11 && investment == "" && returnAmount == ""
      ensures guestPin == "" && !guestError && submitted == [] && !closeRequested
    {
      MockTableOffersEveryRace();
      races := Mock.MockRaces;
      users := Mock.MockUsers;
      currentUser := None;
      selectedUser := None;
      location := Kokura;
      raceNum := 11;
      investment := "";
      returnAmount := "";
      guestPin := "";
      guestError := false;
      submitted := [];
      closeRequested := false;
    }

    /** The participants arrive in display order; a saved session signs in and preselects its user. */
    method Load(fetched: seq<User>, saved: Option<User>)
      requires Valid()
      modifies this`users, this`currentUser, this`selectedUser
      ensures Valid()
      ensures users == SortByOrderedNames(fetched)
      ensures saved.Some? ==> currentUser == saved && selectedUser == saved
      ensures saved.None? ==> unchanged(this`currentUser, this`selectedUser)
    {
      users := SortByOrderedNames(fetched);
      if saved.Some? {
        currentUser := saved;
        selectedUser := saved;
      }
    }

    /**
      Submitting with a chosen participant hands over a draft for them and the chosen
      race with the coerced amounts, clears both amounts and asks to close; with
      nobody chosen it does nothing.
    */
    method HandleSubmit()
      requires Valid()
      requires currentUser.Some?  // the submit button shows only once signed in
      modifies this`submitted, this`investment, this`returnAmount, this`closeRequested
      ensures Valid()
      ensures selectedUser.None? ==> unchanged(this)
      ensures selectedUser.Some? ==>
        submitted == old(submitted) + [Draft(races, selectedUser.value, location, raceNum, old(investment), old(returnAmount))]
        && investment == "" && returnAmount == "" && closeRequested
    {
      if selectedUser.Some? {
        var draft := Draft(races, selectedUser.value, location, raceNum, investment, returnAmount);
        submitted := submitted + [draft];
        investment := "";
        returnAmount := "";
        closeRequested := true;
      }
    }

    /** A guest proves who they are with the chosen participant's PIN; a wrong PIN only raises the error. */
    method HandleGuestLogin()
      requires Valid()
      requires currentUser.None?  // the guest PIN entry shows only while nobody is signed in
      modifies this`currentUser, this`guestError
      ensures Valid()
      ensures selectedUser.Some? && guestPin == selectedUser.value.pin ==>
        currentUser == selectedUser && unchanged(this`guestError)
      ensures selectedUser.Some? && guestPin != selectedUser.value.pin ==>
        unchanged(this`currentUser) && guestError
      ensures selectedUser.None? ==> unchanged(this)
    {
      if selectedUser.Some? {
        if guestPin == selectedUser.value.pin {
          currentUser := selectedUser;
        } else {
          guestError := true;
        }
      }
    }

    /** Choosing another participant (or none) clears the PIN field and the error. */
    method HandleUserChange(userId: string)
      requires Valid()
      requires currentUser.None?  // the drop-down shows only while nobody is signed in
      modifies this`selectedUser, this`guestPin, this`guestError
      ensures Valid()
      ensures selectedUser == FindUser(users, userId) && guestPin == "" && !guestError
    {
      selectedUser := FindUser(users, userId);
      guestPin := "";
      guestError := false;
    }

    /** The venue buttons show only once signed in. */
    method SelectLocation(loc: Location)
      requires Valid()
      requires currentUser.Some?
      modifies this`location
      ensures Valid()
      ensures location == loc
    {
      location := loc;
    }

    /** The race buttons are numbered by their position: button `i` chooses race `i + 1`. */
    method SelectRaceNumber(button: int)
      requires Valid()
      requires currentUser.Some?
      requires 0 <= button < |RaceNumbers()|
      modifies this`raceNum
      ensures Valid()
      ensures raceNum == RaceNumbers()[button]
    {
      raceNum := button + 1;
    }
  }
}
