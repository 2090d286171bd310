/** The record shapes of the application: participants, races, bets and leaderboard entries. */
module Types {
  import opened Common

  /** A participant: `name` is the horse name shown on the board, `jockey` the real name. */
  datatype User = User(id: string, name: string, jockey: string, pin: string, color: string)

  datatype Location = Kokura | Tokyo | Hanshin

  /** A race of the meeting; the descriptive fields (name, conditions, start time) are display only. */
  datatype Race = Race(id: string, location: Location, raceNumber: int)

  /** One reported result. A later record for the same user and race corrects an earlier one. */
  datatype Bet = Bet(id: string, userId: string, raceId: string, investment: int, returnAmount: int, timestamp: int)

  /** A participant with the figures derived from their bets. */
  datatype Entry = Entry(
    user: User,
    totalInvestment: int,
    totalReturn: int,
    netProfit: int,
    returnRate: real,  // percent
    rank: int,
    isKing: bool       // the largest total investment ("investment king")
  )

  /** What the bet-entry form hands to the page (`onSubmit`). */
  datatype BetDraft = BetDraft(userId: string, raceId: string, investment: int, returnAmount: int)

  /** What is sent to the bet store: a draft plus an optional sheet label. */
  datatype BetPayload = BetPayload(userId: string, raceId: string, investment: int, returnAmount: int, userName: Option<string>)

  /** The first user with the given id (JavaScript's `users.find(u => u.id === id)`). */
  function FindUser(users: seq<User>, id: string): (r: Option<User>)
    ensures r.Some? ==> r.value in users && r.value.id == id
    ensures r.None? <==> forall u :: u in users ==> u.id != id
  {
    if |users| == 0 then None
    else if users[0].id == id then Some(users[0])
    else FindUser(users[1..], id)
  }

  /** The position of that first user, or -1. */
  function IndexOfUser(users: seq<User>, id: string): (i: int)
    ensures -1 <= i < |users|
    ensures i >= 0 ==> users[i].id == id && forall j :: 0 <= j < i ==> users[j].id != id
    ensures i == -1 <==> forall j :: 0 <= j < |users| ==> users[j].id != id
  {
    if |users| == 0 then -1
    else if users[0].id == id then 0
    else
      var r := IndexOfUser(users[1..], id);
      if r == -1 then -1 else r + 1
  }

  lemma FindUserAtIndex(users: seq<User>, id: string)
    ensures FindUser(users, id) == (if IndexOfUser(users, id) == -1 then None else Some(users[IndexOfUser(users, id)]))
  {
    if |users| > 0 && users[0].id != id {
      FindUserAtIndex(users[1..], id);
    }
  }

  ghost predicate DistinctIds(users: seq<User>) {
    forall i, j :: 0 <= i < j < |users| ==> users[i].id != users[j].id
  }
}
