/**
  The scrolling news ticker under the leaderboard: either an announcement, or the
  five most recent bet reports, each shown with the horse name, the race and the
  profit. The five are listed twice in a row, and that list is rendered in two
  identical strips side by side, so that the scroll loops seamlessly.
*/
module NewsTicker {
  import opened Common
  import opened Types
  import opened Sorting
  import Mock

  /** One report as the ticker shows it; the digit grouping of the amount is left to the renderer. */
  datatype TickerItem = TickerItem(
    userName: string,
    raceName: string,
    isWin: bool,
    winLabel: string,     // "WIN!" or nothing
    sign: string,         // "+" in front of a positive profit, nothing otherwise
    amountClass: string,  // the colour of the amount
    profit: int           // in yen
  )

  /** What the component renders: the announcement, the two strips of looping bet items, or nothing at all. */
  datatype Ticker = Announcement(message: string) | Scroll(items: seq<TickerItem>, second: seq<TickerItem>) | Hidden

  /** A JavaScript string is truthy when it is present and not empty. */
  predicate Truthy(s: Option<string>) { s.Some? && |s.value| > 0 }

  function Min(a: int, b: int): int { if a <= b then a else b }

  /** The sort key of the copied sort: a descending timestamp order is an ascending order of its negation. */
  function NewestFirst(b: Bet): int { -b.timestamp }

  /**
    The five most recent reports, newest first. Reports with equal timestamps keep
    their order in the input, because the sort is stable.
  */
  function SourceBets(bets: seq<Bet>): (r: seq<Bet>)
    ensures |r| == Min(5, |bets|)
    ensures multiset(r) <= multiset(bets)
    ensures forall i, j :: 0 <= i < j < |r| ==> r[i].timestamp >= r[j].timestamp
    ensures forall x, y :: x in r && y in bets && y.timestamp > x.timestamp ==> y in r
  {
    var sorted := SortByKey(bets, NewestFirst);
    PrefixOfNewestFirst(sorted, bets, Min(5, |bets|));
    sorted[..Min(5, |bets|)]
  }

  /** Any prefix of the bets sorted newest first keeps that order and holds every bet newer than its own. */
  lemma PrefixOfNewestFirst(sorted: seq<Bet>, bets: seq<Bet>, n: int)
    requires multiset(sorted) == multiset(bets) && SortedByKey(sorted, NewestFirst)
    requires 0 <= n <= |sorted|
    ensures multiset(sorted[..n]) <= multiset(bets)
    ensures forall i, j :: 0 <= i < j < n ==> sorted[..n][i].timestamp >= sorted[..n][j].timestamp
    ensures forall x, y :: x in sorted[..n] && y in bets && y.timestamp > x.timestamp ==> y in sorted[..n]
  {
    var r := sorted[..n];
    assert sorted == r + sorted[n..];
    forall i, j | 0 <= i < j < n ensures r[i].timestamp >= r[j].timestamp {
      assert NewestFirst(sorted[i]) <= NewestFirst(sorted[j]);
    }
    forall x, y | x in r && y in bets && y.timestamp > x.timestamp ensures y in r {
      NewerComesFirst(sorted, bets, n, x, y);
    }
  }

  lemma NewerComesFirst(sorted: seq<Bet>, bets: seq<Bet>, n: int, x: Bet, y: Bet)
    requires multiset(sorted) == multiset(bets) && SortedByKey(sorted, NewestFirst)
    requires 0 <= n <= |sorted|
    requires x in sorted[..n] && y in bets && y.timestamp > x.timestamp
    ensures y in sorted[..n]
  {
    var i :| 0 <= i < n && sorted[i] == x;
    assert y in multiset(sorted);
    var j :| 0 <= j < |sorted| && sorted[j] == y;
    assert i < j ==> NewestFirst(sorted[i]) <= NewestFirst(sorted[j]);
    assert j < n;
    assert sorted[..n][j] == y;
  }

  /** The bets rendered twice side by side. */
  function LoopBets(source: seq<Bet>): (r: seq<Bet>)
    ensures |r| == 2 * |source|
    ensures r[..|source|] == source && r[|source|..] == source
  {
    source + source
  }

  function LocationKanji(loc: Location): (k: string)
    ensures |k| == 2
  {
    match loc
    case Kokura => "小倉"
    case Tokyo => "東京"
    case Hanshin => "阪神"
  }

  /** The label of a known race: the venue in kanji, the race number and "R". */
  function RaceLabel(race: Race): (text: string)
    ensures |text| >= 4
    ensures text[..2] == LocationKanji(race.location)
    ensures text[|text| - 1] == 'R'
  {
    LocationKanji(race.location) + IntText(race.raceNumber) + "R"
  }

  /** The first race with the given id (`races.find(r => r.id === id)`). */
  function FindRace(races: seq<Race>, id: string): (r: Option<Race>)
    ensures r.Some? ==> r.value in races && r.value.id == id
    ensures r.None? <==> forall x :: x in races ==> x.id != id
  {
    if |races| == 0 then None
    else if races[0].id == id then Some(races[0])
    else FindRace(races[1..], id)
  }

  /** A race in the table is labelled in kanji; any other race id is shown as it is. */
  function RaceName(races: seq<Race>, raceId: string): (text: string)
    ensures FindRace(races, raceId).Some? ==> text == RaceLabel(FindRace(races, raceId).value)
    ensures FindRace(races, raceId).None? ==> text == raceId
  {
    match FindRace(races, raceId)
    case Some(race) => RaceLabel(race)
    case None => raceId
  }

  /** `user?.name || "Unknown"`: an unknown user, or one with an empty name, shows as "Unknown". */
  function UserName(users: seq<User>, userId: string): (name: string)
    ensures |name| > 0
    ensures FindUser(users, userId).Some? && |FindUser(users, userId).value.name| > 0
      ==> name == FindUser(users, userId).value.name
    ensures FindUser(users, userId).Some? && |FindUser(users, userId).value.name| == 0 ==> name == "Unknown"
    ensures FindUser(users, userId).None? ==> name == "Unknown"
  {
    match FindUser(users, userId)
    case Some(u) => if |u.name| > 0 then u.name else "Unknown"
    case None => "Unknown"
  }

  function Item(users: seq<User>, b: Bet): (item: TickerItem)
    ensures item.profit == b.returnAmount - b.investment
    ensures item.isWin <==> item.profit > 0
    ensures item.winLabel == (if item.isWin then "WIN!" else "")
    ensures item.sign == (if item.isWin then "+" else "")
    ensures item.amountClass == (if item.isWin then "text-yellow-400" else "text-gray-400")
  {
    var profit := b.returnAmount - b.investment;
    var isWin := profit > 0;
    TickerItem(
      UserName(users, b.userId),
      RaceName(Mock.MockRaces, b.raceId),
      isWin,
      if isWin then "WIN!" else "",
      if profit > 0 then "+" else "",
      if isWin then "text-yellow-400" else "text-gray-400",
      profit)
  }

  /**
    The whole component: an announcement wins; otherwise the latest reports loop in
    two identical strips, or nothing shows.
  */
  function Render(customMessage: Option<string>, bets: seq<Bet>, users: seq<User>): (t: Ticker)
    ensures Truthy(customMessage) ==> t == Announcement(customMessage.value)
    ensures !Truthy(customMessage) && |bets| == 0 ==> t == Hidden
    ensures !Truthy(customMessage) && |bets| > 0 ==>
      t.Scroll? && |t.items| == 2 * Min(5, |bets|) && t.second == t.items
      && forall i :: 0 <= i < |t.items| ==> t.items[i] == Item(users, LoopBets(SourceBets(bets))[i])
  {
    if Truthy(customMessage) then Announcement(customMessage.value)
    else
      var loop := LoopBets(SourceBets(bets));
      if |loop| == 0 then Hidden
      else
        var strip := seq(|loop|, i requires 0 <= i < |loop| => Item(users, loop[i]));
        Scroll(strip, strip)
  }

  /** On screen, the bets fill two strips of 2·min(5, n) items each. */
  lemma ItemsOnScreen(msg: Option<string>, bets: seq<Bet>, users: seq<User>)
    requires !Truthy(msg) && |bets| > 0
    ensures |Render(msg, bets, users).items| + |Render(msg, bets, users).second| == 4 * Min(5, |bets|)
  {
  }

  /** While an announcement is set, the bets and users make no difference. */
  lemma AnnouncementIgnoresBets(msg: Option<string>, bets1: seq<Bet>, bets2: seq<Bet>, users1: seq<User>, users2: seq<User>)
    requires Truthy(msg)
    ensures Render(msg, bets1, users1) == Render(msg, bets2, users2)
  {
  }

  /** The component renders nothing exactly when there is no announcement and no bet. */
  lemma HiddenIffNothingToShow(msg: Option<string>, bets: seq<Bet>, users: seq<User>)
    ensures Render(msg, bets, users).Hidden? <==> !Truthy(msg) && |bets| == 0
  {
  }

  /** The second half of the loop repeats the first, item for item. */
  lemma LoopRepeats(msg: Option<string>, bets: seq<Bet>, users: seq<User>, i: int)
    requires !Truthy(msg) && 0 <= i < Min(5, |bets|)
    ensures Render(msg, bets, users).items[i] == Render(msg, bets, users).items[i + Min(5, |bets|)]
  {
    var source := SourceBets(bets);
    var loop := LoopBets(source);
    assert loop[i] == source[i] == loop[i + |source|];
  }

  /** The first item is the most recent report. */
  lemma FirstItemIsNewest(bets: seq<Bet>, y: Bet)
    requires y in bets
    ensures SourceBets(bets)[0].timestamp >= y.timestamp
  {
    var r := SourceBets(bets);
    assert r[0] in r;
    if y in r {
      var j :| 0 <= j < |r| && r[j] == y;
      assert r[0].timestamp >= r[j].timestamp;
    }
  }

  /** A listed participant with a name is shown under that name when no earlier entry has the same id. */
  lemma {:induction false} UserNameShowsListedName(users: seq<User>, i: int)
    requires 0 <= i < |users| && IndexOfUser(users, users[i].id) == i && |users[i].name| > 0
    ensures UserName(users, users[i].id) == users[i].name
  {
    FindUserAtIndex(users, users[i].id);
  }

  /** The venue label of a race determines the venue and the race number. */
  lemma {:induction false} RaceLabelIsInjective(a: Race, b: Race)
    requires RaceLabel(a) == RaceLabel(b)
    ensures a.location == b.location && a.raceNumber == b.raceNumber
  {
    var la, lb := RaceLabel(a), RaceLabel(b);
    assert LocationKanji(a.location) == la[..2] == lb[..2] == LocationKanji(b.location);
    assert IntText(a.raceNumber) == la[2..|la| - 1] == lb[2..|lb| - 1] == IntText(b.raceNumber);
    IntTextIsInjective(a.raceNumber, b.raceNumber);
  }

  /** A handful of reports that carry one timestamp are shown in their stored order. */
  lemma SameTimeKeepsOrder(bets: seq<Bet>)
    requires |bets| <= 5
    requires forall k :: 0 <= k < |bets| ==> bets[k].timestamp == bets[0].timestamp
    ensures SourceBets(bets) == bets
  {
    assert SortedByKey(bets, NewestFirst);
    SortOfSortedIsIdentity(bets, NewestFirst);
    assert SortByKey(bets, NewestFirst)[..|bets|] == bets;
  }

  /** The fixture reports all carry the same timestamp, so the ticker shows them in their stored order. */
  lemma MockTickerOrder(loadTime: int)
    ensures SourceBets(Mock.MockBets(loadTime)) == Mock.MockBets(loadTime)
  {
    SameTimeKeepsOrder(Mock.MockBets(loadTime));
  }
}
