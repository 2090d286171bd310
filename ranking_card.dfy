/**
  One row of the leaderboard: the frame colour of its horse number, the marks it
  shows, and whether its detail pane is open.
*/
module RankingCard {
  import opened Common
  import opened Types
  import opened Leaderboard

  /** The eight JRA frame colours, frames 1 to 8. */
  const WakuBgColors: seq<string> := [
    "bg-white text-black",
    "bg-black text-white",
    "bg-red-600 text-white",
    "bg-blue-600 text-white",
    "bg-yellow-400 text-black",
    "bg-green-600 text-white",
    "bg-orange-500 text-black",
    "bg-pink-400 text-black"
  ]

  /**
    The frame colour of a horse number in a twelve-horse field: numbers 1 to 4 have
    frames of their own, 5 to 12 share frames 5 to 8 in pairs, anything else is gray.
  */
  function WakuColorClass(horseNumber: int): (c: string)
    ensures 1 <= horseNumber <= 4 ==> c == WakuBgColors[horseNumber - 1]
    ensures 5 <= horseNumber <= 12 ==> c == WakuBgColors[4 + (horseNumber - 5) / 2]
    ensures horseNumber < 1 || horseNumber > 12 ==> c == "bg-gray-500"
  {
    if horseNumber == 1 then WakuBgColors[0]
    else if horseNumber == 2 then WakuBgColors[1]
    else if horseNumber == 3 then WakuBgColors[2]
    else if horseNumber == 4 then WakuBgColors[3]
    else if horseNumber == 5 || horseNumber == 6 then WakuBgColors[4]
    else if horseNumber == 7 || horseNumber == 8 then WakuBgColors[5]
    else if horseNumber == 9 || horseNumber == 10 then WakuBgColors[6]
    else if horseNumber == 11 || horseNumber == 12 then WakuBgColors[7]
    else "bg-gray-500"
  }

  /** The horse number is the card's position on the board plus one, whatever its rank. */
  function HorseNumber(index: nat): (n: int)
    ensures n >= 1 && n - 1 == index
  {
    index + 1
  }

  /** Every card on a board of at most twelve gets a real frame colour, not the gray fallback. */
  lemma BoardPositionsHaveFrames(index: nat)
    requires index < 12
    ensures WakuColorClass(HorseNumber(index)) in WakuBgColors
  {
  }

  /** `currentUser?.id === entry.id`: false when nobody is signed in. */
  predicate IsMe(currentUser: Option<User>, e: Entry) {
    currentUser.Some? && currentUser.value.id == e.user.id
  }

  predicate ShowsCrown(e: Entry) { e.rank == 1 }

  predicate ShowsStar(e: Entry) { e.isKing }

  /** On the board, the crown marks exactly the participants nobody is strictly ahead of. */
  lemma CrownMeansNobodyAhead(users: seq<User>, bets: seq<Bet>, i: int)
    requires 0 <= i < |users|
    ensures var s := Standings(users, bets);
      ShowsCrown(s[i]) <==> forall j :: 0 <= j < |s| ==> !Better(s[j], s[i])
  {
    var s := Standings(users, bets);
    var t := Tallies(users, bets);
    var c := Crowned(t);
    StandingFlags(users, bets, i);
    if forall j :: 0 <= j < |s| ==> !Better(s[j], s[i]) {
      StandingIsTally(users, bets, i);
      forall j | 0 <= j < |c| ensures !Better(c[j], c[i]) {
        StandingIsTally(users, bets, j);
      }
      CountBetterOfPrefix(c, c[i], 0);
    } else {
      var j :| 0 <= j < |s| && Better(s[j], s[i]);
      RankOrder(users, bets, j, i);
      RankBounds(users, bets, j);
    }
  }

  /** On the board, the star marks exactly the participants holding the largest positive total investment. */
  lemma StarMeansTopInvestor(users: seq<User>, bets: seq<Bet>, i: int)
    requires 0 <= i < |users|
    ensures var s := Standings(users, bets);
      ShowsStar(s[i]) <==> s[i].totalInvestment > 0
                           && forall j :: 0 <= j < |s| ==> s[j].totalInvestment <= s[i].totalInvestment
  {
    KingIsTopInvestor(users, bets, i);
  }

  /** A click on the card (on one's own card or someone else's), or a click inside the open detail pane. */
  datatype CardEvent = CardClick(isMe: bool) | DetailClick

  /** The rule for the detail pane: a click on the card flips it only on one's own card; a click inside closes it. */
  function Step(expanded: bool, ev: CardEvent): (after: bool)
    ensures ev.CardClick? && !ev.isMe ==> after == expanded
    ensures ev.CardClick? && ev.isMe ==> after != expanded
    ensures ev.DetailClick? ==> !after
  {
    match ev
    case CardClick(isMe) => if isMe then !expanded else expanded
    case DetailClick => false
  }

  function Replay(expanded: bool, evs: seq<CardEvent>): bool
    decreases |evs|
  {
    if |evs| == 0 then expanded else Replay(Step(expanded, evs[0]), evs[1..])
  }

  /** Clicking one's own card twice restores the pane. */
  lemma ToggleTwiceRestores(expanded: bool, isMe: bool)
    ensures Step(Step(expanded, CardClick(isMe)), CardClick(isMe)) == expanded
  {
  }

  /** A card that is not the signed-in user's never opens, whatever is clicked. */
  lemma {:induction false} OthersCardsStayClosed(evs: seq<CardEvent>)
    requires forall i :: 0 <= i < |evs| ==> evs[i] != CardClick(true)
    ensures !Replay(false, evs)
  {
    if |evs| > 0 {
      assert Step(false, evs[0]) == false;
      OthersCardsStayClosed(evs[1..]);
    }
  }

  class Card {
    var isExpanded: bool

    constructor()
      ensures !isExpanded
    {
      isExpanded := false;
    }

    /** `handleToggle`, the click anywhere on the card. */
    method HandleToggle(isMe: bool)
      modifies this
      ensures isExpanded == Step(old(isExpanded), CardClick(isMe))
    {
      if isMe {
        isExpanded := !isExpanded;
      }
    }

    /** The click inside the open detail pane. */
    method CloseDetails()
      modifies this
      ensures isExpanded == Step(old(isExpanded), DetailClick)
    {
      isExpanded := false;
    }
  }
}
