/**
  The home page's state: the participants in display order, the bet stream and
  the derived leaderboard. Loading replaces users and bets, the effect recomputes
  the board, a submitted bet is sent to the store and, without a configured
  database, appended locally, and a realtime insert is appended.
*/
module Home {
  import opened Common
  import opened Types
  import opened Latest
  import opened NameOrder
  import opened Leaderboard
  import Api

  /** The sheet label of a bet: "<horse name> 【<jockey>】", or "Unknown" for an id nobody has. */
  function SheetLabel(users: seq<User>, userId: string): (text: string)
    ensures FindUser(users, userId).Some? ==>
      text == FindUser(users, userId).value.name + " 【" + FindUser(users, userId).value.jockey + "】"
    ensures FindUser(users, userId).None? ==> text == "Unknown"
    ensures |text| > 0
  {
    match FindUser(users, userId)
    case Some(u) => u.name + " 【" + u.jockey + "】"
    case None => "Unknown"
  }

  /** The record appended locally for a submitted draft. */
  function LocalBet(draft: BetDraft, newId: string, now: int): (b: Bet)
    ensures b.id == newId && b.timestamp == now
    ensures BetDraft(b.userId, b.raceId, b.investment, b.returnAmount) == draft
  {
    Bet(newId, draft.userId, draft.raceId, draft.investment, draft.returnAmount, now)
  }

  /**
    A bet appended with a timestamp later than every bet already held is the one
    that counts for its (user, race): it is among the valid bets, and no other
    valid bet has its pair.
  */
  lemma LocalBetTakesEffect(bets: seq<Bet>, draft: BetDraft, newId: string, now: int)
    requires forall j :: 0 <= j < |bets| ==> bets[j].timestamp < now
    ensures LocalBet(draft, newId, now) in ValidBets(bets + [LocalBet(draft, newId, now)])
    ensures forall b ::
      (b in ValidBets(bets + [LocalBet(draft, newId, now)]) && b.userId == draft.userId && b.raceId == draft.raceId)
      ==> b == LocalBet(draft, newId, now)
  {
    var x := LocalBet(draft, newId, now);
    NewestRecordIsKept(bets, x, BetKey, BetTime);
  }

  /** The spreadsheet's user column of a bet sent from this page is its label, never the bare id. */
  lemma SheetShowsLabel(users: seq<User>, draft: BetDraft)
    ensures Api.SheetUserId(BetPayload(draft.userId, draft.raceId, draft.investment, draft.returnAmount,
                                       Some(SheetLabel(users, draft.userId))))
         == SheetLabel(users, draft.userId)
  {
  }

  class HomePage {
    var users: seq<User>
    var bets: seq<Bet>
    var leaderboard: seq<Entry>

    /** Before loading, the users are the fixture users and there are no bets. */
    constructor(initialUsers: seq<User>)
      ensures users == initialUsers && bets == [] && leaderboard == []
    {
      users := initialUsers;
      bets := [];
      leaderboard := [];
    }

    /** The initial fetch: users in display order, bets as fetched. */
    method Load(fetchedUsers: seq<User>, fetchedBets: seq<Bet>)
      modifies this`users, this`bets
      ensures users == SortByOrderedNames(fetchedUsers) && bets == fetchedBets
    {
      users := SortByOrderedNames(fetchedUsers);
      bets := fetchedBets;
    }

    /** The effect that runs after users or bets change. */
    method Refresh()
      modifies this`leaderboard
      ensures |leaderboard| == |users|
      ensures forall p :: 0 <= p < |users| ==> leaderboard[p].(rank := 0) == Crowned(Tallies(users, bets))[p]
      ensures forall p :: 0 <= p < |users| && IndexOfUser(users, users[p].id) != p ==> leaderboard[p].rank == 0
      ensures DistinctIds(users) ==> leaderboard == Standings(users, bets)
    {
      leaderboard := ComputeLeaderboard(users, bets);
    }

    /**
      Submitting a bet: the payload sent to the store carries the sheet label;
      without a configured database (`localOnly`) the bet is also appended with a
      fresh id and the current time.
    */
    method AddBet(draft: BetDraft, localOnly: bool, newId: string, now: int) returns (sent: BetPayload)
      modifies this`bets
      ensures sent == BetPayload(draft.userId, draft.raceId, draft.investment, draft.returnAmount,
                                 Some(SheetLabel(users, draft.userId)))
      ensures bets == if localOnly then old(bets) + [LocalBet(draft, newId, now)] else old(bets)
    {
      sent := BetPayload(draft.userId, draft.raceId, draft.investment, draft.returnAmount,
                         Some(SheetLabel(users, draft.userId)));
      if localOnly {
        bets := bets + [LocalBet(draft, newId, now)];
      }
    }

    /** A bet inserted elsewhere arrives over the realtime channel and is appended. */
    method ReceiveInsert(b: Bet)
      modifies this`bets
      ensures bets == old(bets) + [b]
    {
      bets := bets + [b];
    }
  }
}
