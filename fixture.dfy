/**
  The leaderboard of the fixture data: the participants are already in display
  order, the fixture bets have distinct (user, race) pairs, and the board ranks
  the five bettors by return rate ahead of the seven who have not bet.
*/
module Fixture {
  import opened Common
  import opened Types
  import opened Latest
  import opened Mock
  import opened NameOrder
  import opened Leaderboard

  lemma MockUsersAreInDisplayOrder()
    ensures SortByOrderedNames(MockUsers) == MockUsers
  {
    ListedInOrderIsUnchanged(MockUsers);
  }

  lemma MockBetsAreAllValid(loadTime: int)
    ensures ValidBets(MockBets(loadTime)) == MockBets(loadTime)
  {
    DistinctStreamIsItsOwnView(MockBets(loadTime), BetKey, BetTime);
  }

  function MockEntry(i: int, inv: int, ret: int, rate: real): Entry
    requires 0 <= i < |MockUsers|
  {
    Entry(MockUsers[i], inv, ret, ret - inv, rate, 0, false)
  }

  /** The fixture totals: five users with one bet of 10000 each, seven users with nothing. */
  function MockInvestment(i: int): int {
    if i == 0 || i == 1 || i == 2 || i == 9 || i == 11 then 10000 else 0
  }

  function MockReturn(i: int): int {
    if i == 0 then 11900 else if i == 1 then 3140 else if i == 2 then 20530
    else if i == 9 then 100 else if i == 11 then 2420 else 0
  }

  function MockRate(i: int): real {
    if i == 0 then 119.0 else if i == 1 then 31.4 else if i == 2 then 205.3
    else if i == 9 then 1.0 else if i == 11 then 24.2 else 0.0
  }

  const MockTallyTable: seq<Entry> :=
    seq(12, i requires 0 <= i < 12 => MockEntry(i, MockInvestment(i), MockReturn(i), MockRate(i)))

  /** The position of a fixture user's bet among the fixture bets, -1 for a user without one. */
  function MockBetOf(i: int): int {
    if i == 2 then 0 else if i == 0 then 1 else if i == 1 then 2
    else if i == 9 then 3 else if i == 11 then 4 else -1
  }

  lemma MockTally(loadTime: int, i: int)
    requires 0 <= i < |MockUsers|
    ensures Tally(MockUsers[i], MockBets(loadTime)) == MockTallyTable[i]
  {
    if MockBetOf(i) == -1 {
      MockTallyWithoutBet(loadTime, i);
    } else {
      MockTallyWithBet(loadTime, i);
    }
  }

  lemma MockTallyWithBet(loadTime: int, i: int)
    requires 0 <= i < |MockUsers| && MockBetOf(i) >= 0
    ensures Tally(MockUsers[i], MockBets(loadTime)) == MockTallyTable[i]
  {
    var b := MockBets(loadTime);
    var k := MockBetOf(i);
    assert b[k].userId == MockUsers[i].id;
    BetsOfSingle(b, MockUsers[i].id, k);
    SingleBetSums(b[k]);
  }

  lemma MockTallyWithoutBet(loadTime: int, i: int)
    requires 0 <= i < |MockUsers| && MockBetOf(i) == -1
    ensures Tally(MockUsers[i], MockBets(loadTime)) == MockTallyTable[i]
  {
    BetsOfNone(MockBets(loadTime), MockUsers[i].id);
  }

  lemma MockTallies(loadTime: int)
    ensures Tallies(MockUsers, MockBets(loadTime)) == MockTallyTable
  {
    MockBetsAreAllValid(loadTime);
    forall i | 0 <= i < |MockUsers| ensures Tallies(MockUsers, MockBets(loadTime))[i] == MockTallyTable[i] {
      MockTally(loadTime, i);
    }
  }

  /** The fixture board: the five users who staked the most are all kings. */
  lemma MockCrowned()
    ensures forall i :: 0 <= i < |MockUsers| ==>
      Crowned(MockTallyTable)[i] == MockTallyTable[i].(isKing := MockTallyTable[i].totalInvestment == 10000)
  {
    var xs := Investments(MockTallyTable);
    assert xs[0] == 10000;
    assert MaxOf(xs) == 10000;
  }

  function Ind(b: bool): int { if b then 1 else 0 }

  lemma MockCount(e: Entry)
    ensures var t := MockTallyTable;
      CountBetter(t, e) ==
        Ind(Better(t[0], e)) + Ind(Better(t[1], e)) + Ind(Better(t[2], e)) + Ind(Better(t[3], e)) +
        Ind(Better(t[4], e)) + Ind(Better(t[5], e)) + Ind(Better(t[6], e)) + Ind(Better(t[7], e)) +
        Ind(Better(t[8], e)) + Ind(Better(t[9], e)) + Ind(Better(t[10], e)) + Ind(Better(t[11], e))
  {
    var t := MockTallyTable;
    forall k | 0 <= k < 12
      ensures CountBetter(t[k..], e) == Ind(Better(t[k], e)) + CountBetter(t[k + 1..], e)
    {
      CountBetterSuffix(t, e, k);
    }
    assert t[0..] == t;
    assert t[12..] == [];
  }

  /** The place of each fixture user on the board. */
  function MockPlace(i: int): int {
    if i == 2 then 1 else if i == 0 then 2 else if i == 1 then 3 else if i == 11 then 4
    else if i == 9 then 5 else 6
  }

  lemma MockRank(i: int)
    requires 0 <= i < |MockUsers|
    ensures 1 + CountBetter(MockTallyTable, MockTallyTable[i]) == MockPlace(i)
  {
    MockCount(MockTallyTable[i]);
  }

  lemma MockStandingAt(loadTime: int, i: int)
    requires 0 <= i < |MockUsers|
    ensures Standings(MockUsers, MockBets(loadTime))[i] ==
      MockTallyTable[i].(isKing := MockTallyTable[i].totalInvestment == 10000,
                         rank := 1 + CountBetter(MockTallyTable, MockTallyTable[i]))
  {
    var t := MockTallyTable;
    MockTallies(loadTime);
    MockCrowned();
    var c := Crowned(t);
    CountBetterPointwise(c, t, c[i]);
    CountBetterSameStanding(t, c[i], t[i]);
  }

  lemma MockBoardEntry(loadTime: int, i: int)
    requires 0 <= i < |MockUsers|
    ensures var e := Standings(MockUsers, MockBets(loadTime))[i];
      e.rank == MockPlace(i) && e.returnRate == MockRate(i) && e.totalInvestment == MockInvestment(i)
  {
    MockStandingAt(loadTime, i);
    MockRank(i);
  }

  /**
    The fixture board's ranks: チェンジドライバ (205.3%) first, ウグイスバレー (119%)
    second, ニンゲンビレッジ (31.4%) third, キンパチティーチャ (24.2%) fourth,
    アサミハズバンド (1%) fifth, and the seven users without bets share sixth place.
  */
  lemma MockLeaderboardRanks(loadTime: int)
    ensures var s := Standings(MockUsers, MockBets(loadTime));
      && s[2].rank == 1 && s[0].rank == 2 && s[1].rank == 3 && s[11].rank == 4 && s[9].rank == 5
      && s[2].returnRate == 205.3 && s[0].returnRate == 119.0 && s[1].returnRate == 31.4
      && s[11].returnRate == 24.2 && s[9].returnRate == 1.0
  {
    MockBoardEntry(loadTime, 2);
    MockBoardEntry(loadTime, 0);
    MockBoardEntry(loadTime, 1);
    MockBoardEntry(loadTime, 11);
    MockBoardEntry(loadTime, 9);
  }

  /** Everyone on the fixture board without a stake shares the sixth place. */
  lemma MockNonBettorsShareSixth(loadTime: int)
    ensures var s := Standings(MockUsers, MockBets(loadTime));
      forall i :: 0 <= i < |s| && s[i].totalInvestment == 0 ==> s[i].rank == 6
  {
    forall i | 0 <= i < |MockUsers| && Standings(MockUsers, MockBets(loadTime))[i].totalInvestment == 0
      ensures Standings(MockUsers, MockBets(loadTime))[i].rank == 6
    {
      MockBoardEntry(loadTime, i);
    }
  }

  /** The five fixture users who staked 10000 (ids 1, 2, 3, 10 and 12) are all investment kings, and nobody else is. */
  lemma MockLeaderboardKings(loadTime: int)
    ensures var s := Standings(MockUsers, MockBets(loadTime));
      forall i :: 0 <= i < |s| ==> (s[i].isKing <==> i == 0 || i == 1 || i == 2 || i == 9 || i == 11)
  {
    forall i | 0 <= i < |MockUsers|
      ensures Standings(MockUsers, MockBets(loadTime))[i].isKing == (MockTallyTable[i].totalInvestment == 10000)
    {
      MockStandingAt(loadTime, i);
    }
  }
}
