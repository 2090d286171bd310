/**
  The stand-alone reproduction script: the same latest-per-(user, race) collapse
  and king rule as the home page, over its own small fixture, with investments
  read through `Number(x || 0)` so that a missing amount counts as 0.
*/
module Reproduce {
  import opened Common
  import opened Latest

  datatype ScriptUser = ScriptUser(id: string, name: string, jockey: string)

  /** A bet record of the script; `investment` may be absent. */
  datatype ScriptBet = ScriptBet(userId: string, raceId: string, investment: Option<int>, returnAmount: int, timestamp: int)

  datatype KingRow = KingRow(user: ScriptUser, totalInvestment: int, isKing: bool)

  /** `Number(x || 0)`: an absent amount (or 0) gives 0, a number gives itself. */
  function Coerced(x: Option<int>): (n: int)
    ensures x.None? ==> n == 0
    ensures x.Some? ==> n == x.value
  {
    match x
    case None => 0
    case Some(v) => v  // `0 || 0` is 0 as well
  }

  function ScriptKey(b: ScriptBet): Key { Key(b.userId, b.raceId) }

  function ScriptTime(b: ScriptBet): int { b.timestamp }

  function CoercedTotal(bs: seq<ScriptBet>): int {
    if |bs| == 0 then 0 else Coerced(bs[0].investment) + CoercedTotal(bs[1..])
  }

  function UserTotal(valid: seq<ScriptBet>, userId: string): int {
    CoercedTotal(Filter(valid, (b: ScriptBet) => b.userId == userId))
  }

  /** The rows before the king pass: one per user, in user order. */
  function Totals(users: seq<ScriptUser>, bets: seq<ScriptBet>): (rows: seq<KingRow>)
    ensures |rows| == |users|
  {
    var valid := LatestOf(bets, ScriptKey, ScriptTime);
    seq(|users|, i requires 0 <= i < |users| => KingRow(users[i], UserTotal(valid, users[i].id), false))
  }

  function RowTotals(rows: seq<KingRow>): (xs: seq<int>)
    ensures |xs| == |rows| && forall i :: 0 <= i < |rows| ==> xs[i] == rows[i].totalInvestment
  {
    seq(|rows|, i requires 0 <= i < |rows| => rows[i].totalInvestment)
  }

  /** The script's result: a row is king when it holds the largest total and that total is positive. */
  function KingTable(users: seq<ScriptUser>, bets: seq<ScriptBet>): (rows: seq<KingRow>)
    ensures |rows| == |users|
  {
    var t := Totals(users, bets);
    seq(|t|, i requires 0 <= i < |t| =>
      t[i].(isKing := t[i].totalInvestment == MaxOf(RowTotals(t)) && MaxOf(RowTotals(t)) > 0))
  }

  /** One row per user, in user order, users without bets included. */
  lemma RowsFollowUsers(users: seq<ScriptUser>, bets: seq<ScriptBet>, i: int)
    requires 0 <= i < |users|
    ensures KingTable(users, bets)[i].user == users[i]
  {
  }

  /** King exactly when the total is positive and no other total is larger; ties give several kings. */
  lemma KingIsLargestPositiveTotal(users: seq<ScriptUser>, bets: seq<ScriptBet>, i: int)
    requires 0 <= i < |users|
    ensures var k := KingTable(users, bets);
      k[i].isKing <==> k[i].totalInvestment > 0 &&
                       forall j :: 0 <= j < |k| ==> k[j].totalInvestment <= k[i].totalInvestment
  {
    var t := Totals(users, bets);
    var k := KingTable(users, bets);
    var xs := RowTotals(t);
    assert forall j :: 0 <= j < |k| ==> k[j].totalInvestment == xs[j];
    assert xs[i] in xs;
    if k[i].totalInvestment > 0 && forall j :: 0 <= j < |k| ==> k[j].totalInvestment <= k[i].totalInvestment {
      var m :| 0 <= m < |xs| && xs[m] == MaxOf(xs);
      assert xs[m] <= xs[i];
    }
    if k[i].isKing {
      forall j | 0 <= j < |k| ensures k[j].totalInvestment <= k[i].totalInvestment {
        assert xs[j] in xs;
      }
    }
  }

  lemma {:induction false} AbsentAmountsAddNothing(bs: seq<ScriptBet>)
    requires forall j :: 0 <= j < |bs| ==> bs[j].investment.None?
    ensures CoercedTotal(bs) == 0
  {
    if |bs| > 0 {
      AbsentAmountsAddNothing(bs[1..]);
    }
  }

  /** The king pass, in place: rows holding the largest positive total get the flag. */
  method FlagKings(entries: array<KingRow>)
    modifies entries
    ensures forall p :: 0 <= p < entries.Length ==>
      entries[p] == old(entries[p]).(isKing := old(entries[p]).isKing ||
        (old(entries[p]).totalInvestment == MaxOf(RowTotals(old(entries[..]))) && MaxOf(RowTotals(old(entries[..]))) > 0))
  {
    if entries.Length > 0 {
      ghost var before := entries[..];
      var maxInvestment := MaxOf(RowTotals(entries[..]));
      for i := 0 to entries.Length
        invariant forall p :: 0 <= p < i ==>
          entries[p] == before[p].(isKing := before[p].isKing || (before[p].totalInvestment == maxInvestment && maxInvestment > 0))
        invariant forall p :: i <= p < entries.Length ==> entries[p] == before[p]
      {
        if entries[i].totalInvestment == maxInvestment && maxInvestment > 0 {
          entries[i] := entries[i].(isKing := true);
        }
      }
    }
  }

  /** The script's `calculate()`: collapse, total, then flag kings in place. */
  method Calculate(users: seq<ScriptUser>, bets: seq<ScriptBet>) returns (rows: seq<KingRow>)
    ensures rows == KingTable(users, bets)
  {
    var valid := CollapseLatest(bets, ScriptKey, ScriptTime);
    var entries := TotalRows(users, valid);
    assert entries[..] == Totals(users, bets);
    FlagKings(entries);
    rows := entries[..];
    FlaggedIsKingTable(users, bets, rows);
  }

  /** The totals: one fresh row per user over the valid bets. */
  method TotalRows(users: seq<ScriptUser>, valid: seq<ScriptBet>) returns (entries: array<KingRow>)
    ensures fresh(entries)
    ensures entries[..] == seq(|users|, i requires 0 <= i < |users| => KingRow(users[i], UserTotal(valid, users[i].id), false))
  {
    var totals := seq(|users|, i requires 0 <= i < |users| => KingRow(users[i], UserTotal(valid, users[i].id), false));
    entries := new KingRow[|totals|](i requires 0 <= i < |totals| => totals[i]);
    assert entries[..] == totals;
  }

  lemma FlaggedIsKingTable(users: seq<ScriptUser>, bets: seq<ScriptBet>, rows: seq<KingRow>)
    requires |rows| == |users|
    requires var t := Totals(users, bets);
      forall p :: 0 <= p < |t| ==>
        rows[p] == t[p].(isKing := t[p].isKing || (t[p].totalInvestment == MaxOf(RowTotals(t)) && MaxOf(RowTotals(t)) > 0))
    ensures rows == KingTable(users, bets)
  {
  }

  lemma UserTotalSingle(valid: seq<ScriptBet>, userId: string, k: int)
    requires 0 <= k < |valid| && valid[k].userId == userId
    requires forall j :: 0 <= j < |valid| && j != k ==> valid[j].userId != userId
    ensures UserTotal(valid, userId) == Coerced(valid[k].investment)
  {
    FilterSingle(valid, (b: ScriptBet) => b.userId == userId, k);
    assert [valid[k]][1..] == [];
    assert CoercedTotal([valid[k]]) == Coerced(valid[k].investment) + CoercedTotal([]);
  }

  lemma UserTotalNone(valid: seq<ScriptBet>, userId: string)
    requires forall j :: 0 <= j < |valid| ==> valid[j].userId != userId
    ensures UserTotal(valid, userId) == 0
  {
    FilterNone(valid, (b: ScriptBet) => b.userId == userId);
  }

  const ScriptUsers: seq<ScriptUser> := [
    ScriptUser("7", "ツチサカガク", "土坂"),
    ScriptUser("12", "キンパチティーチャ", "佐久間"),
    ScriptUser("1", "User1", "J1")
  ]

  function ScriptBets(now: int): seq<ScriptBet> {
    [
      ScriptBet("7", "r1", Some(300000), 0, now),
      ScriptBet("12", "r2", Some(15000), 0, now)
    ]
  }

  /** The script's own fixture: the largest total is 300000 and only user "7" is king. */
  lemma ScriptFixture(now: int)
    ensures var k := KingTable(ScriptUsers, ScriptBets(now));
      && MaxOf(RowTotals(Totals(ScriptUsers, ScriptBets(now)))) == 300000
      && k[0].isKing && !k[1].isKing && !k[2].isKing
  {
    ScriptRowTotals(now);
    assert MaxOf([300000, 15000, 0]) == 300000;
  }

  lemma ScriptRowTotals(now: int)
    ensures RowTotals(Totals(ScriptUsers, ScriptBets(now))) == [300000, 15000, 0]
  {
    ScriptBetsAreAllValid(now);
    ScriptUserTotals(now);
  }

  lemma ScriptBetsAreAllValid(now: int)
    ensures LatestOf(ScriptBets(now), ScriptKey, ScriptTime) == ScriptBets(now)
  {
    DistinctStreamIsItsOwnView(ScriptBets(now), ScriptKey, ScriptTime);
  }

  lemma ScriptUserTotals(now: int)
    ensures UserTotal(ScriptBets(now), "7") == 300000
    ensures UserTotal(ScriptBets(now), "12") == 15000
    ensures UserTotal(ScriptBets(now), "1") == 0
  {
    var b := ScriptBets(now);
    UserTotalSingle(b, "7", 0);
    UserTotalSingle(b, "12", 1);
    UserTotalNone(b, "1");
  }
}
