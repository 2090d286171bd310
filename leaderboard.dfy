/**
  The leaderboard of the home page (the effect that runs whenever the bets or the
  users change): bets are collapsed to the latest one per (user, race), each user
  gets totals and a return rate over their valid bets, the largest positive total
  investment is crowned, and ranks follow return rate, then investment, with
  tied standings sharing a rank.
*/
module Leaderboard {
  import opened Common
  import opened Types
  import opened Latest

  function BetKey(b: Bet): Key { Key(b.userId, b.raceId) }

  function BetTime(b: Bet): int { b.timestamp }

  /** The bets that count: the latest one per (user, race). */
  function ValidBets(bets: seq<Bet>): seq<Bet> {
    LatestOf(bets, BetKey, BetTime)
  }

  function BetsOf(valid: seq<Bet>, userId: string): seq<Bet> {
    Filter(valid, (b: Bet) => b.userId == userId)
  }

  lemma BetsOfSingle(valid: seq<Bet>, userId: string, k: int)
    requires 0 <= k < |valid| && valid[k].userId == userId
    requires forall j :: 0 <= j < |valid| && j != k ==> valid[j].userId != userId
    ensures BetsOf(valid, userId) == [valid[k]]
  {
    FilterSingle(valid, (b: Bet) => b.userId == userId, k);
  }

  lemma BetsOfNone(valid: seq<Bet>, userId: string)
    requires forall j :: 0 <= j < |valid| ==> valid[j].userId != userId
    ensures BetsOf(valid, userId) == []
  {
    FilterNone(valid, (b: Bet) => b.userId == userId);
  }

  function SumInvestment(bs: seq<Bet>): int {
    if |bs| == 0 then 0 else bs[0].investment + SumInvestment(bs[1..])
  }

  function SumReturn(bs: seq<Bet>): int {
    if |bs| == 0 then 0 else bs[0].returnAmount + SumReturn(bs[1..])
  }

  lemma SingleBetSums(x: Bet)
    ensures SumInvestment([x]) == x.investment && SumReturn([x]) == x.returnAmount
  {
    assert [x][1..] == [];
  }

  /** Return over investment in percent; 0 when nothing was invested. */
  function ReturnRate(investment: int, ret: int): (rate: real)
    ensures investment > 0 ==> rate * investment as real == 100.0 * ret as real
    ensures investment <= 0 ==> rate == 0.0
  {
    if investment > 0 then (ret as real / investment as real) * 100.0 else 0.0
  }

  /** A user's entry before the king and rank passes. */
  function Tally(user: User, valid: seq<Bet>): Entry {
    var mine := BetsOf(valid, user.id);
    var inv := SumInvestment(mine);
    var ret := SumReturn(mine);
    Entry(user, inv, ret, ret - inv, ReturnRate(inv, ret), 0, false)
  }

  /** One entry per user, in user order, carrying that user and starting at rank 0 without the flag. */
  function Tallies(users: seq<User>, bets: seq<Bet>): (es: seq<Entry>)
    ensures |es| == |users|
    ensures forall i :: 0 <= i < |users| ==> es[i].user == users[i] && es[i].rank == 0 && !es[i].isKing
  {
    var valid := ValidBets(bets);
    seq(|users|, i requires 0 <= i < |users| => Tally(users[i], valid))
  }

  function Investments(es: seq<Entry>): (xs: seq<int>)
    ensures |xs| == |es|
    ensures forall i :: 0 <= i < |es| ==> xs[i] == es[i].totalInvestment
  {
    seq(|es|, i requires 0 <= i < |es| => es[i].totalInvestment)
  }

  /** `e` holds the largest total investment of `es`, and that amount is positive. */
  predicate IsKingAmong(es: seq<Entry>, e: Entry) {
    |es| > 0 && e.totalInvestment == MaxOf(Investments(es)) && MaxOf(Investments(es)) > 0
  }

  function Crowned(es: seq<Entry>): (r: seq<Entry>)
    ensures |r| == |es|
  {
    seq(|es|, i requires 0 <= i < |es| => es[i].(isKing := IsKingAmong(es, es[i])))
  }

  /** `a` is placed strictly ahead of `b`: higher return rate, or the same rate and more invested. */
  predicate Better(a: Entry, b: Entry) {
    a.returnRate > b.returnRate || (a.returnRate == b.returnRate && a.totalInvestment > b.totalInvestment)
  }

  predicate SameStanding(a: Entry, b: Entry) {
    a.returnRate == b.returnRate && a.totalInvestment == b.totalInvestment
  }

  /** How many entries of `s` are strictly ahead of `e`. */
  function CountBetter(s: seq<Entry>, e: Entry): (n: nat)
    ensures n <= |s|
  {
    if |s| == 0 then 0 else (if Better(s[0], e) then 1 else 0) + CountBetter(s[1..], e)
  }

  /** Standard competition ranking: one more than the number of entries strictly ahead. */
  function Ranked(es: seq<Entry>): (r: seq<Entry>)
    ensures |r| == |es|
  {
    seq(|es|, i requires 0 <= i < |es| => es[i].(rank := 1 + CountBetter(es, es[i])))
  }

  /** The leaderboard the page shows, in the order of `users`. */
  function Standings(users: seq<User>, bets: seq<Bet>): (r: seq<Entry>)
    ensures |r| == |users|
  {
    Ranked(Crowned(Tallies(users, bets)))
  }

  // ---------------------------------------------------------------------------
  // The ranking sort: a stable insertion sort by the source's comparator.

  ghost predicate SortedByStanding(s: seq<Entry>) {
    forall i, j :: 0 <= i < j < |s| ==> !Better(s[j], s[i])
  }

  /** Places `x` in front of the first entry that is not strictly ahead of it. */
  function InsertByStanding(x: Entry, s: seq<Entry>): (r: seq<Entry>)
    ensures multiset(r) == multiset(s) + multiset{x}
    ensures |r| == |s| + 1
  {
    if |s| == 0 then [x]
    else if !Better(s[0], x) then [x] + s
    else
      assert s == [s[0]] + s[1..];
      [s[0]] + InsertByStanding(x, s[1..])
  }

  lemma ConsByStanding(a: Entry, t: seq<Entry>)
    requires SortedByStanding(t)
    requires forall y :: y in t ==> !Better(y, a)
    ensures SortedByStanding([a] + t)
  {
    var r := [a] + t;
    forall i, j | 0 <= i < j < |r| ensures !Better(r[j], r[i]) {
      assert r[j] == t[j - 1];
      if i > 0 {
        assert r[i] == t[i - 1];
      } else {
        assert t[j - 1] in t;
      }
    }
  }

  lemma {:induction false} InsertByStandingSorted(x: Entry, s: seq<Entry>)
    requires SortedByStanding(s)
    ensures SortedByStanding(InsertByStanding(x, s))
  {
    if |s| == 0 {
    } else if !Better(s[0], x) {
      forall y | y in s ensures !Better(y, x) {
        var k :| 0 <= k < |s| && s[k] == y;
        if k > 0 {
          assert !Better(s[k], s[0]);
        }
      }
      ConsByStanding(x, s);
    } else {
      var t := InsertByStanding(x, s[1..]);
      assert s == [s[0]] + s[1..];
      InsertByStandingSorted(x, s[1..]);
      forall y | y in t ensures !Better(y, s[0]) {
        assert y in multiset(t);
        assert y == x || y in s[1..];
        if y != x {
          var k :| 0 <= k < |s[1..]| && s[1..][k] == y;
          assert s[k + 1] == y;
        }
      }
      ConsByStanding(s[0], t);
    }
  }

  /** `[...entries].sort(...)`: a permutation in standing order. */
  function SortByStanding(s: seq<Entry>): (r: seq<Entry>)
    ensures multiset(r) == multiset(s)
    ensures |r| == |s|
    ensures SortedByStanding(r)
  {
    if |s| == 0 then []
    else
      assert s == [s[0]] + s[1..];
      var t := SortByStanding(s[1..]);
      InsertByStandingSorted(s[0], t);
      InsertByStanding(s[0], t)
  }

  // ---------------------------------------------------------------------------
  // The rank the source's pass over the sorted list assigns.

  /** The rank at position `i` of a sorted list: the previous rank on a tie, otherwise `i + 1`. */
  ghost function PositionalRank(s: seq<Entry>, i: int): int
    requires 0 <= i < |s|
  {
    if i == 0 then 1
    else if SameStanding(s[i - 1], s[i]) then PositionalRank(s, i - 1)
    else i + 1
  }

  lemma {:induction false} CountBetterOfPrefix(s: seq<Entry>, e: Entry, k: int)
    requires 0 <= k <= |s|
    requires forall j :: 0 <= j < k ==> Better(s[j], e)
    requires forall j :: k <= j < |s| ==> !Better(s[j], e)
    ensures CountBetter(s, e) == k
  {
    if |s| > 0 {
      if k == 0 {
        assert !Better(s[0], e);
        CountBetterOfPrefix(s[1..], e, 0);
      } else {
        CountBetterOfPrefix(s[1..], e, k - 1);
      }
    }
  }

  lemma CountBetterSuffix(s: seq<Entry>, e: Entry, k: int)
    requires 0 <= k < |s|
    ensures CountBetter(s[k..], e) == (if Better(s[k], e) then 1 else 0) + CountBetter(s[k + 1..], e)
  {
    assert s[k..][1..] == s[k + 1..];
  }

  lemma {:induction false} CountBetterSameStanding(s: seq<Entry>, a: Entry, b: Entry)
    requires SameStanding(a, b)
    ensures CountBetter(s, a) == CountBetter(s, b)
  {
    if |s| > 0 {
      CountBetterSameStanding(s[1..], a, b);
    }
  }

  lemma {:induction false} CountBetterPointwise(s: seq<Entry>, s2: seq<Entry>, e: Entry)
    requires |s| == |s2| && forall j :: 0 <= j < |s| ==> SameStanding(s[j], s2[j])
    ensures CountBetter(s, e) == CountBetter(s2, e)
  {
    if |s| > 0 {
      CountBetterPointwise(s[1..], s2[1..], e);
    }
  }

  lemma {:induction false} CountBetterAppend(a: seq<Entry>, b: seq<Entry>, e: Entry)
    ensures CountBetter(a + b, e) == CountBetter(a, e) + CountBetter(b, e)
  {
    if |a| == 0 {
      assert a + b == b;
    } else {
      assert (a + b)[1..] == a[1..] + b;
      CountBetterAppend(a[1..], b, e);
    }
  }

  /** The count depends only on which entries there are, not on their order. */
  lemma {:induction false} CountBetterPermutation(s: seq<Entry>, t: seq<Entry>, e: Entry)
    requires multiset(s) == multiset(t)
    ensures CountBetter(s, e) == CountBetter(t, e)
  {
    if |s| == 0 {
      assert |t| == |multiset(t)| == 0;
    } else {
      assert s[0] in multiset(t);
      var k :| 0 <= k < |t| && t[k] == s[0];
      var rest := t[..k] + t[k + 1..];
      RemoveOne(t, k);
      RemoveFirst(s);
      CountBetterPermutation(s[1..], rest, e);
      CountBetterRemove(t, k, e);
    }
  }

  lemma RemoveFirst(s: seq<Entry>)
    requires |s| > 0
    ensures multiset(s[1..]) == multiset(s) - multiset{s[0]}
  {
    assert s == [s[0]] + s[1..];
  }

  lemma RemoveOne(t: seq<Entry>, k: int)
    requires 0 <= k < |t|
    ensures multiset(t[..k] + t[k + 1..]) == multiset(t) - multiset{t[k]}
  {
    assert t == t[..k] + [t[k]] + t[k + 1..];
  }

  lemma CountBetterRemove(t: seq<Entry>, k: int, e: Entry)
    requires 0 <= k < |t|
    ensures CountBetter(t, e) == (if Better(t[k], e) then 1 else 0) + CountBetter(t[..k] + t[k + 1..], e)
  {
    assert t == t[..k] + [t[k]] + t[k + 1..];
    CountBetterAppend(t[..k] + [t[k]], t[k + 1..], e);
    CountBetterAppend(t[..k], [t[k]], e);
    CountBetterAppend(t[..k], t[k + 1..], e);
  }

  /**
    On a list in standing order, the source's rank pass gives position `i` one more
    than the number of entries strictly ahead of it.
  */
  lemma {:induction false} PositionalRankCountsBetter(s: seq<Entry>, i: int)
    requires SortedByStanding(s)
    requires 0 <= i < |s|
    ensures PositionalRank(s, i) == 1 + CountBetter(s, s[i])
  {
    if i == 0 {
      CountBetterOfPrefix(s, s[0], 0);
    } else if SameStanding(s[i - 1], s[i]) {
      PositionalRankCountsBetter(s, i - 1);
      CountBetterSameStanding(s, s[i - 1], s[i]);
    } else {
      assert Better(s[i - 1], s[i]);
      forall j | 0 <= j < i ensures Better(s[j], s[i]) {
        if j < i - 1 {
          assert !Better(s[i - 1], s[j]);
        }
      }
      CountBetterOfPrefix(s, s[i], i);
    }
  }

  /**
    The rank does not depend on how the sort ordered tied entries: any two orderings
    of the same entries by standing give an entry the same rank.
  */
  lemma RankIgnoresTieOrder(s: seq<Entry>, t: seq<Entry>, i: int, j: int)
    requires SortedByStanding(s) && SortedByStanding(t) && multiset(s) == multiset(t)
    requires 0 <= i < |s| && 0 <= j < |t| && s[i] == t[j]
    ensures PositionalRank(s, i) == PositionalRank(t, j)
  {
    PositionalRankCountsBetter(s, i);
    PositionalRankCountsBetter(t, j);
    CountBetterPermutation(s, t, s[i]);
  }

  lemma {:induction false} CountBetterMonotone(s: seq<Entry>, a: Entry, b: Entry)
    requires Better(a, b)
    ensures CountBetter(s, a) <= CountBetter(s, b)
  {
    if |s| > 0 {
      CountBetterMonotone(s[1..], a, b);
    }
  }

  lemma {:induction false} CountBetterStrict(s: seq<Entry>, a: Entry, b: Entry)
    requires Better(a, b) && a in s
    ensures CountBetter(s, a) < CountBetter(s, b)
  {
    if s[0] == a {
      CountBetterMonotone(s[1..], a, b);
    } else {
      assert a in s[1..];
      CountBetterStrict(s[1..], a, b);
    }
  }

  lemma {:induction false} CountBetterBelowLength(s: seq<Entry>, e: Entry)
    requires e in s
    ensures CountBetter(s, e) < |s|
  {
    if s[0] != e {
      assert e in s[1..];
      CountBetterBelowLength(s[1..], e);
    }
  }

  // ---------------------------------------------------------------------------
  // Properties of the leaderboard.

  /** Ranks run from 1 to the number of participants. */
  lemma RankBounds(users: seq<User>, bets: seq<Bet>, i: int)
    requires 0 <= i < |users|
    ensures 1 <= Standings(users, bets)[i].rank <= |users|
  {
    var c := Crowned(Tallies(users, bets));
    CountBetterBelowLength(c, c[i]);
  }

  /** An entry strictly ahead gets a smaller rank; entries with equal standing share a rank. */
  lemma RankOrder(users: seq<User>, bets: seq<Bet>, i: int, j: int)
    requires 0 <= i < |users| && 0 <= j < |users|
    ensures var s := Standings(users, bets);
      && (Better(s[i], s[j]) ==> s[i].rank < s[j].rank)
      && (SameStanding(s[i], s[j]) ==> s[i].rank == s[j].rank)
  {
    var c := Crowned(Tallies(users, bets));
    if Better(c[i], c[j]) {
      CountBetterStrict(c, c[i], c[j]);
    }
    if SameStanding(c[i], c[j]) {
      CountBetterSameStanding(c, c[i], c[j]);
    }
  }

  /** Some participant is ranked first whenever there is anyone on the board. */
  lemma TopRankExists(users: seq<User>, bets: seq<Bet>)
    requires |users| > 0
    ensures exists i :: 0 <= i < |users| && Standings(users, bets)[i].rank == 1
  {
    var c := Crowned(Tallies(users, bets));
    var sorted := SortByStanding(c);
    CountBetterOfPrefix(sorted, sorted[0], 0);
    assert sorted[0] in multiset(c);
    var i :| 0 <= i < |c| && c[i] == sorted[0];
    CountBetterPermutation(sorted, c, c[i]);
    assert Standings(users, bets)[i].rank == 1;
  }

  /** The king flag marks exactly the entries holding the largest total investment, when it is positive. */
  lemma KingIsTopInvestor(users: seq<User>, bets: seq<Bet>, i: int)
    requires 0 <= i < |users|
    ensures var s := Standings(users, bets);
      s[i].isKing <==> s[i].totalInvestment > 0 &&
                       forall j :: 0 <= j < |s| ==> s[j].totalInvestment <= s[i].totalInvestment
  {
    var t := Tallies(users, bets);
    var s := Standings(users, bets);
    var xs := Investments(t);
    var m := MaxOf(xs);
    forall j | 0 <= j < |s| ensures s[j].totalInvestment == xs[j] {
      StandingIsTally(users, bets, j);
    }
    StandingFlags(users, bets, i);
    assert xs[i] in xs;
    if s[i].totalInvestment > 0 && forall j :: 0 <= j < |s| ==> s[j].totalInvestment <= s[i].totalInvestment {
      var k :| 0 <= k < |xs| && xs[k] == m;
      assert xs[k] <= xs[i];
    }
    if s[i].isKing {
      forall j | 0 <= j < |s| ensures s[j].totalInvestment <= s[i].totalInvestment {
        assert xs[j] in xs;
      }
    }
  }

  /** A participant without any bet shows all-zero figures. */
  lemma NoBetsNoFigures(users: seq<User>, bets: seq<Bet>, i: int)
    requires 0 <= i < |users|
    requires forall b :: b in bets ==> b.userId != users[i].id
    ensures var e := Standings(users, bets)[i];
      e.totalInvestment == 0 && e.totalReturn == 0 && e.netProfit == 0 && e.returnRate == 0.0
  {
    NoValidBetsOf(bets, users[i].id);
    StandingIsTally(users, bets, i);
  }

  lemma NoValidBetsOf(bets: seq<Bet>, userId: string)
    requires forall b :: b in bets ==> b.userId != userId
    ensures BetsOf(ValidBets(bets), userId) == []
  {
    var valid := ValidBets(bets);
    var ws := LatestOfWitnesses(bets, BetKey, BetTime);
    forall k | 0 <= k < |valid| ensures valid[k].userId != userId {
      assert bets[ws[k]] == valid[k];
    }
    BetsOfNone(valid, userId);
  }

  /** Net profit is return minus investment, and the rate is their ratio in percent (0 without investment). */
  predicate FiguresAgree(e: Entry) {
    && e.netProfit == e.totalReturn - e.totalInvestment
    && (e.totalInvestment > 0 ==> e.returnRate * e.totalInvestment as real == 100.0 * e.totalReturn as real)
    && (e.totalInvestment <= 0 ==> e.returnRate == 0.0)
  }

  lemma FiguresAgreeForTally(user: User, valid: seq<Bet>)
    ensures FiguresAgree(Tally(user, valid))
  {
  }

  lemma FiguresIgnoreFlags(t: Entry, e: Entry)
    requires e.(rank := 0, isKing := false) == t.(rank := 0, isKing := false)
    ensures FiguresAgree(t) ==> FiguresAgree(e)
  {
    assert e.totalInvestment == t.totalInvestment && e.totalReturn == t.totalReturn;
    assert e.returnRate == t.returnRate && e.netProfit == t.netProfit;
  }

  /** Every entry is its participant's, with consistent figures. */
  lemma FiguresAreConsistent(users: seq<User>, bets: seq<Bet>, i: int)
    requires 0 <= i < |users|
    ensures Standings(users, bets)[i].user == users[i]
    ensures FiguresAgree(Standings(users, bets)[i])
  {
    var t := Tally(users[i], ValidBets(bets));
    StandingIsTally(users, bets, i);
    FiguresAgreeForTally(users[i], ValidBets(bets));
    FiguresIgnoreFlags(t, Standings(users, bets)[i]);
  }

  lemma StandingFlags(users: seq<User>, bets: seq<Bet>, i: int)
    requires 0 <= i < |users|
    ensures var t := Tallies(users, bets);
      && Standings(users, bets)[i].isKing == IsKingAmong(t, t[i])
      && Standings(users, bets)[i].rank == 1 + CountBetter(Crowned(t), Crowned(t)[i])
  {
  }

  /** Crowning and ranking only set the flag and the rank. */
  lemma StandingIsTally(users: seq<User>, bets: seq<Bet>, i: int)
    requires 0 <= i < |users|
    ensures Standings(users, bets)[i].(rank := 0, isKing := false) == Tally(users[i], ValidBets(bets))
  {
    var t := Tallies(users, bets);
    assert t[i] == Tally(users[i], ValidBets(bets));
    assert Crowned(t)[i] == t[i].(isKing := IsKingAmong(t, t[i]));
  }

  /** A report that is not strictly later than the current one for its (user, race) changes nothing. */
  lemma SupersededReportChangesNothing(users: seq<User>, bets: seq<Bet>, x: Bet, i: int)
    requires 0 <= i < |ValidBets(bets)|
    requires BetKey(ValidBets(bets)[i]) == BetKey(x) && x.timestamp <= ValidBets(bets)[i].timestamp
    ensures Standings(users, bets + [x]) == Standings(users, bets)
  {
    AppendSupersededIsNoOp(bets, x, BetKey, BetTime, i);
  }

  /** A strictly later report for a (user, race) replaces the earlier one among the valid bets. */
  lemma CorrectionReplacesReport(bets: seq<Bet>, x: Bet, i: int)
    requires 0 <= i < |ValidBets(bets)|
    requires BetKey(ValidBets(bets)[i]) == BetKey(x) && x.timestamp > ValidBets(bets)[i].timestamp
    ensures ValidBets(bets + [x]) == ValidBets(bets)[i := x]
  {
    AppendCorrectionReplaces(bets, x, BetKey, BetTime, i);
  }

  /** A correction in action: a loss reported first and corrected later counts only as corrected. */
  lemma CorrectionExample(u: User)
    ensures var bets := [Bet("a", u.id, "t11", 1000, 0, 10), Bet("b", u.id, "t11", 1000, 2000, 20)];
      var e := Standings([u], bets)[0];
      e.totalInvestment == 1000 && e.totalReturn == 2000 && e.returnRate == 200.0 && e.rank == 1 && e.isKing
  {
    var b1 := Bet("a", u.id, "t11", 1000, 0, 10);
    var b2 := Bet("b", u.id, "t11", 1000, 2000, 20);
    assert [b1, b2][..1] == [b1] && [b1][..0] == [];
    assert LatestOf([b1], BetKey, BetTime) == [b1];
    assert IndexOfKey([b1], BetKey(b2), BetKey) == 0;
    assert ValidBets([b1, b2]) == [b2];
    assert BetsOf([b2], u.id) == [b2];
    assert [b2][1..] == [];
    assert SumInvestment([b2]) == 1000 && SumReturn([b2]) == 2000;
    var e := Tally(u, [b2]);
    assert e.totalInvestment == 1000 && e.totalReturn == 2000;
    assert e.returnRate == 200.0;
    var t := Tallies([u], [b1, b2]);
    assert t == [e];
    assert Investments(t) == [1000];
    assert IsKingAmong(t, t[0]);
    var c := Crowned(t);
    assert c[1..] == [];
    assert CountBetter(c, c[0]) == 0;
    StandingIsTally([u], [b1, b2], 0);
    StandingFlags([u], [b1, b2], 0);
  }

  /** Two reports with the same timestamp: the first one stays. */
  lemma TimestampTieKeepsFirst(u: User)
    ensures var bets := [Bet("a", u.id, "t11", 1000, 0, 10), Bet("b", u.id, "t11", 1000, 2000, 10)];
      Standings([u], bets)[0].totalReturn == 0
  {
    var b1 := Bet("a", u.id, "t11", 1000, 0, 10);
    var b2 := Bet("b", u.id, "t11", 1000, 2000, 10);
    assert [b1, b2][..1] == [b1] && [b1][..0] == [];
    assert LatestOf([b1], BetKey, BetTime) == [b1];
    assert IndexOfKey([b1], BetKey(b2), BetKey) == 0;
    assert ValidBets([b1, b2]) == [b1];
    assert BetsOf([b1], u.id) == [b1];
    assert [b1][1..] == [];
    assert SumReturn([b1]) == 0;
    assert Tally(u, [b1]).totalReturn == 0;
    StandingIsTally([u], [b1, b2], 0);
    assert Standings([u], [b1, b2])[0].totalReturn == Tally(u, ValidBets([b1, b2])).totalReturn;
  }

  // ---------------------------------------------------------------------------
  // The effect itself.

  /** The first entry whose participant has the given id, or -1 (`entries.find(e => e.id === id)`). */
  function IndexOfEntry(es: seq<Entry>, id: string): (i: int)
    ensures -1 <= i < |es|
    ensures i >= 0 ==> es[i].user.id == id && forall j :: 0 <= j < i ==> es[j].user.id != id
    ensures i == -1 <==> forall j :: 0 <= j < |es| ==> es[j].user.id != id
  {
    if |es| == 0 then -1
    else if es[0].user.id == id then 0
    else
      var r := IndexOfEntry(es[1..], id);
      if r == -1 then -1 else r + 1
  }

  lemma {:induction false} IndexOfEntrySameIds(a: seq<Entry>, b: seq<Entry>, id: string)
    requires |a| == |b| && forall p :: 0 <= p < |a| ==> a[p].user.id == b[p].user.id
    ensures IndexOfEntry(a, id) == IndexOfEntry(b, id)
  {
    if |a| > 0 {
      IndexOfEntrySameIds(a[1..], b[1..], id);
    }
  }

  lemma {:induction false} IndexOfEntryIsIndexOfUser(es: seq<Entry>, users: seq<User>, id: string)
    requires |es| == |users| && forall p :: 0 <= p < |es| ==> es[p].user == users[p]
    ensures IndexOfEntry(es, id) == IndexOfUser(users, id)
  {
    if |es| > 0 {
      IndexOfEntryIsIndexOfUser(es[1..], users[1..], id);
    }
  }

  ghost predicate DistinctEntryIds(es: seq<Entry>) {
    forall i, j :: 0 <= i < j < |es| ==> es[i].user.id != es[j].user.id
  }

  lemma EntryAtItsId(es: seq<Entry>, e: Entry)
    requires DistinctEntryIds(es) && e in es
    ensures 0 <= IndexOfEntry(es, e.user.id) < |es| && es[IndexOfEntry(es, e.user.id)] == e
  {
    var r :| 0 <= r < |es| && es[r] == e;
    var q := IndexOfEntry(es, e.user.id);
    assert q != -1 && q <= r;
  }

  /**
    Step 3 of the effect, in place: every entry holding the largest total
    investment, when that is positive, gets the king flag; nothing else changes.
    With no entries `Math.max()` is -Infinity and there is nothing to flag.
  */
  method MarkKings(entries: array<Entry>)
    modifies entries
    ensures forall p :: 0 <= p < entries.Length ==>
      entries[p] == old(entries[p]).(isKing := old(entries[p]).isKing || IsKingAmong(old(entries[..]), old(entries[p])))
  {
    if entries.Length > 0 {
      ghost var before := entries[..];
      var maxInvestment := MaxOf(Investments(entries[..]));
      for i := 0 to entries.Length
        invariant forall p :: 0 <= p < i ==>
          entries[p] == before[p].(isKing := before[p].isKing || IsKingAmong(before, before[p]))
        invariant forall p :: i <= p < entries.Length ==> entries[p] == before[p]
      {
        if entries[i].totalInvestment == maxInvestment && maxInvestment > 0 {
          entries[i] := entries[i].(isKing := true);
        }
      }
    }
  }

  /**
    Step 4 of the effect, in place: sort a copy by standing, walk it keeping the
    current rank, and write each rank back through the first entry with that
    participant's id. Only ranks change; an entry hidden behind an earlier one
    with the same id keeps its rank; with distinct ids every entry gets one more
    than the number of entries strictly ahead of it.
  */
  method AssignRanks(entries: array<Entry>)
    modifies entries
    ensures forall p :: 0 <= p < entries.Length ==> entries[p] == old(entries[p]).(rank := entries[p].rank)
    ensures forall p :: 0 <= p < entries.Length && IndexOfEntry(old(entries[..]), old(entries[p]).user.id) != p ==>
      entries[p].rank == old(entries[p]).rank
    ensures DistinctEntryIds(old(entries[..])) ==> entries[..] == Ranked(old(entries[..]))
  {
    ghost var before := entries[..];
    var n := entries.Length;
    var ranked := SortByStanding(entries[..]);
    var currentRank := 1;
    for i := 0 to n
      invariant OnlyRanksOfFirsts(entries[..], before)
      invariant i == 0 ==> currentRank == 1
      invariant i > 0 ==> currentRank == PositionalRank(ranked, i - 1)
      invariant DistinctEntryIds(before) ==> RanksWritten(entries[..], before, ranked, i)
    {
      if i > 0 {
        var prev := ranked[i - 1];
        if prev.returnRate == ranked[i].returnRate && prev.totalInvestment == ranked[i].totalInvestment {
          // same rank as the previous entry
        } else {
          currentRank := i + 1;
        }
      }
      assert i == 0 || currentRank == PositionalRank(ranked, i);
      ghost var written := entries[..];
      var original := IndexOfEntry(entries[..], ranked[i].user.id);
      RankLoopStep(written, before, ranked, i, original, currentRank);
      if original >= 0 {
        entries[original] := entries[original].(rank := currentRank);
        assert entries[..] == written[original := written[original].(rank := currentRank)];
      }
    }
    if DistinctEntryIds(before) {
      FinishRanks(entries[..], before, ranked);
    }
  }

  /** Only ranks differ from `before`, and only at the first entry of each participant id. */
  ghost predicate OnlyRanksOfFirsts(es: seq<Entry>, before: seq<Entry>) {
    |es| == |before|
    && (forall p :: 0 <= p < |es| ==> es[p] == before[p].(rank := es[p].rank))
    && (forall p :: 0 <= p < |es| && IndexOfEntry(before, before[p].user.id) != p ==> es[p].rank == before[p].rank)
  }

  /** One pass of the rank loop: the entry found for `ranked[i]` exists and gets rank `r`. */
  lemma RankLoopStep(written: seq<Entry>, before: seq<Entry>, ranked: seq<Entry>, i: int, q: int, r: int)
    requires OnlyRanksOfFirsts(written, before)
    requires SortedByStanding(ranked) && multiset(ranked) == multiset(before) && |ranked| == |before|
    requires 0 <= i < |ranked|
    requires DistinctEntryIds(before) ==> RanksWritten(written, before, ranked, i)
    requires q == IndexOfEntry(written, ranked[i].user.id)
    requires i == 0 ==> r == 1
    requires i > 0 ==> r == PositionalRank(ranked, i)
    ensures 0 <= q < |written|
    ensures OnlyRanksOfFirsts(written[q := written[q].(rank := r)], before)
    ensures DistinctEntryIds(before) ==> RanksWritten(written[q := written[q].(rank := r)], before, ranked, i + 1)
  {
    assert 0 <= q < |written| && q == IndexOfEntry(before, ranked[i].user.id) by {
      IndexOfEntrySameIds(written, before, ranked[i].user.id);
      RankedEntryHasPosition(before, ranked, i);
    }
    assert IndexOfEntry(before, before[q].user.id) == q;
    if DistinctEntryIds(before) {
      RankStep(written, before, ranked, i, q, r);
    }
  }

  /** The entries behind the first `i` positions of `ranked` carry their specified rank. */
  ghost predicate RanksWritten(es: seq<Entry>, before: seq<Entry>, ranked: seq<Entry>, i: int)
    requires 0 <= i <= |ranked|
  {
    forall k :: 0 <= k < i ==>
      var q := IndexOfEntry(before, ranked[k].user.id);
      0 <= q < |es| && es[q].rank == 1 + CountBetter(before, ranked[k])
  }

  lemma RankWrittenAt(es: seq<Entry>, before: seq<Entry>, ranked: seq<Entry>, i: int, k: int)
    requires 0 <= k < i <= |ranked| && RanksWritten(es, before, ranked, i)
    ensures var q := IndexOfEntry(before, ranked[k].user.id);
      0 <= q < |es| && es[q].rank == 1 + CountBetter(before, ranked[k])
  {
  }

  lemma RankedEntryHasPosition(before: seq<Entry>, ranked: seq<Entry>, i: int)
    requires multiset(ranked) == multiset(before) && 0 <= i < |ranked|
    ensures IndexOfEntry(before, ranked[i].user.id) >= 0
  {
    assert ranked[i] in multiset(before);
    var p :| 0 <= p < |before| && before[p] == ranked[i];
  }

  lemma RankStep(written: seq<Entry>, before: seq<Entry>, ranked: seq<Entry>, i: int, q: int, r: int)
    requires DistinctEntryIds(before) && |written| == |before|
    requires SortedByStanding(ranked) && multiset(ranked) == multiset(before)
    requires 0 <= i < |ranked| && RanksWritten(written, before, ranked, i)
    requires q == IndexOfEntry(before, ranked[i].user.id) && 0 <= q < |written|
    requires i == 0 || r == PositionalRank(ranked, i)
    requires i > 0 || r == 1
    ensures RanksWritten(written[q := written[q].(rank := r)], before, ranked, i + 1)
  {
    PositionalRankCountsBetter(ranked, i);
    CountBetterPermutation(ranked, before, ranked[i]);
    var next := written[q := written[q].(rank := r)];
    forall k | 0 <= k < i + 1
      ensures var qk := IndexOfEntry(before, ranked[k].user.id);
        0 <= qk < |next| && next[qk].rank == 1 + CountBetter(before, ranked[k])
    {
      if k < i {
        RankWrittenAt(written, before, ranked, i, k);
        if IndexOfEntry(before, ranked[k].user.id) == q {
          SameIdSameEntry(before, ranked, k, i);
        }
      }
    }
  }

  /** With distinct ids, two entries of a permutation found under the same position are the same entry. */
  lemma SameIdSameEntry(before: seq<Entry>, ranked: seq<Entry>, k: int, i: int)
    requires DistinctEntryIds(before) && multiset(ranked) == multiset(before)
    requires 0 <= k < |ranked| && 0 <= i < |ranked|
    requires IndexOfEntry(before, ranked[k].user.id) == IndexOfEntry(before, ranked[i].user.id)
    ensures ranked[k] == ranked[i]
  {
    assert ranked[k] in multiset(before) && ranked[i] in multiset(before);
    EntryAtItsId(before, ranked[k]);
    EntryAtItsId(before, ranked[i]);
  }

  lemma FinishRanks(es: seq<Entry>, before: seq<Entry>, ranked: seq<Entry>)
    requires DistinctEntryIds(before) && |es| == |before| == |ranked|
    requires multiset(ranked) == multiset(before)
    requires forall p :: 0 <= p < |es| ==> es[p] == before[p].(rank := es[p].rank)
    requires RanksWritten(es, before, ranked, |ranked|)
    ensures es == Ranked(before)
  {
    forall p | 0 <= p < |es| ensures es[p] == Ranked(before)[p] {
      FinishRankAt(es, before, ranked, p);
    }
  }

  lemma FinishRankAt(es: seq<Entry>, before: seq<Entry>, ranked: seq<Entry>, p: int)
    requires DistinctEntryIds(before) && |es| == |before| == |ranked|
    requires multiset(ranked) == multiset(before)
    requires 0 <= p < |es| && es[p] == before[p].(rank := es[p].rank)
    requires RanksWritten(es, before, ranked, |ranked|)
    ensures es[p] == before[p].(rank := 1 + CountBetter(before, before[p]))
  {
    assert before[p] in ranked by {
      assert before[p] in multiset(ranked);
    }
    var k :| 0 <= k < |ranked| && ranked[k] == before[p];
    assert IndexOfEntry(before, ranked[k].user.id) == p;
    RankWrittenAt(es, before, ranked, |ranked|, k);
  }

  /**
    The effect as the source runs it: collapse, tally, crown in place, then rank in
    place. Every field but the rank is the specification's; an entry hidden behind
    an earlier one with the same id keeps rank 0; with distinct ids the result is
    exactly the specified leaderboard.
  */
  method ComputeLeaderboard(users: seq<User>, bets: seq<Bet>) returns (board: seq<Entry>)
    ensures |board| == |users|
    ensures forall p :: 0 <= p < |users| ==> board[p].(rank := 0) == Crowned(Tallies(users, bets))[p]
    ensures forall p :: 0 <= p < |users| && IndexOfUser(users, users[p].id) != p ==> board[p].rank == 0
    ensures DistinctIds(users) ==> board == Standings(users, bets)
  {
    var entries := CrownedEntries(users, bets);
    ghost var crowned := entries[..];
    CrownedShape(users, bets);

    // 4. ranks
    AssignRanks(entries);
    board := entries[..];
    BoardFacts(users, crowned, board);
  }

  /** Steps 1 to 3 of the effect: collapse the bets, tally every user, crown in place. */
  method CrownedEntries(users: seq<User>, bets: seq<Bet>) returns (entries: array<Entry>)
    ensures fresh(entries)
    ensures entries[..] == Crowned(Tallies(users, bets))
  {
    // 1. valid bets
    var valid := CollapseLatest(bets, BetKey, BetTime);

    // 2. totals
    entries := TallyUsers(users, valid);
    ghost var tallies := entries[..];
    assert tallies == Tallies(users, bets);

    // 3. the king
    MarkKings(entries);
    KingsAreCrowned(tallies, entries[..]);
  }

  /** Step 2 of the effect: one fresh entry per user, with totals over the valid bets. */
  method TallyUsers(users: seq<User>, valid: seq<Bet>) returns (entries: array<Entry>)
    ensures fresh(entries)
    ensures entries[..] == seq(|users|, i requires 0 <= i < |users| => Tally(users[i], valid))
  {
    var tallies := seq(|users|, i requires 0 <= i < |users| => Tally(users[i], valid));
    entries := new Entry[|tallies|](i requires 0 <= i < |tallies| => tallies[i]);
    assert entries[..] == tallies;
  }

  lemma KingsAreCrowned(tallies: seq<Entry>, crowned: seq<Entry>)
    requires |crowned| == |tallies|
    requires forall p :: 0 <= p < |tallies| ==> !tallies[p].isKing
    requires forall p :: 0 <= p < |tallies| ==>
      crowned[p] == tallies[p].(isKing := tallies[p].isKing || IsKingAmong(tallies, tallies[p]))
    ensures crowned == Crowned(tallies)
  {
  }

  lemma CrownedShape(users: seq<User>, bets: seq<Bet>)
    ensures forall p :: 0 <= p < |users| ==>
      Crowned(Tallies(users, bets))[p].user == users[p] && Crowned(Tallies(users, bets))[p].rank == 0
  {
  }

  lemma BoardFacts(users: seq<User>, crowned: seq<Entry>, board: seq<Entry>)
    requires |crowned| == |users| && |board| == |crowned|
    requires forall p :: 0 <= p < |users| ==> crowned[p].user == users[p] && crowned[p].rank == 0
    requires forall p :: 0 <= p < |board| ==> board[p] == crowned[p].(rank := board[p].rank)
    requires forall p :: 0 <= p < |board| && IndexOfEntry(crowned, crowned[p].user.id) != p ==>
      board[p].rank == crowned[p].rank
    requires DistinctEntryIds(crowned) ==> board == Ranked(crowned)
    ensures forall p :: 0 <= p < |users| ==> board[p].(rank := 0) == crowned[p]
    ensures forall p :: 0 <= p < |users| && IndexOfUser(users, users[p].id) != p ==> board[p].rank == 0
    ensures DistinctIds(users) ==> board == Ranked(crowned)
  {
    EntriesFollowUsers(users, crowned);
  }

  lemma EntriesFollowUsers(users: seq<User>, es: seq<Entry>)
    requires |es| == |users|
    requires forall p :: 0 <= p < |users| ==> es[p].user == users[p]
    ensures forall p :: 0 <= p < |users| ==> IndexOfEntry(es, users[p].id) == IndexOfUser(users, users[p].id)
    ensures DistinctIds(users) ==> DistinctEntryIds(es)
  {
    forall p | 0 <= p < |users| ensures IndexOfEntry(es, users[p].id) == IndexOfUser(users, users[p].id) {
      IndexOfEntryIsIndexOfUser(es, users, users[p].id);
    }
  }
}
