/**
  The data-access layer, reduced to the value transforms around the store calls:
  the fixture fallback when no store is configured, the jockey-name patch on fetched
  users, the mapping between stored bet rows and bet records, the insert record and
  the payload logged to the spreadsheet. The store calls themselves are parameters:
  each fetch receives what the store answered.
*/
module Api {
  import opened Common
  import opened Types
  import Mock

  /** What a store query answered: the rows (absent when the store returned none) and whether it failed. */
  datatype Answer<T> = Answer(data: Option<seq<T>>, failed: bool)

  /** The rows of an answer, the empty list when there are none. */
  function RowsOf<T>(a: Answer<T>): (rows: seq<T>)
    ensures a.data.None? ==> rows == []
    ensures a.data.Some? ==> rows == a.data.value
  {
    match a.data
    case None => []
    case Some(rows) => rows
  }

  /** The misspelt jockey name that the stored users are corrected from, and its correction. */
  const Misspelt: string := "富田"
  const Corrected: string := "冨田"

  /** The correction of one user: only the jockey name, and only when it is exactly the misspelling. */
  function PatchJockey(u: User): (r: User)
    ensures r.id == u.id && r.name == u.name && r.pin == u.pin && r.color == u.color
    ensures r.jockey == (if u.jockey == Misspelt then Corrected else u.jockey)
  {
    if u.jockey == Misspelt then u.(jockey := Corrected) else u
  }

  function PatchUsers(users: seq<User>): (r: seq<User>)
    ensures |r| == |users|
    ensures forall i :: 0 <= i < |users| ==> r[i] == PatchJockey(users[i])
  {
    if |users| == 0 then [] else [PatchJockey(users[0])] + PatchUsers(users[1..])
  }

  /** After the patch no user carries the misspelling, and patching again changes nothing. */
  lemma {:induction false} PatchIsIdempotent(users: seq<User>)
    ensures forall i :: 0 <= i < |users| ==> PatchUsers(users)[i].jockey != Misspelt
    ensures PatchUsers(PatchUsers(users)) == PatchUsers(users)
  {
    var once := PatchUsers(users);
    assert Corrected != Misspelt by { assert Corrected[0] != Misspelt[0]; }
    assert forall i :: 0 <= i < |users| ==> once[i].jockey != Misspelt;
    assert forall i :: 0 <= i < |once| ==> PatchJockey(once[i]) == once[i];
  }

  /** A user whose jockey name is not the misspelling comes through unchanged. */
  lemma PatchLeavesOthers(users: seq<User>, i: int)
    requires 0 <= i < |users| && users[i].jockey != Misspelt
    ensures PatchUsers(users)[i] == users[i]
  {
  }

  /** The fixture users, or the patched rows of the store (none when it answered nothing). */
  function FetchUsers(useMock: bool, answer: Answer<User>): (users: seq<User>)
    ensures useMock ==> users == Mock.MockUsers
    ensures !useMock ==> users == PatchUsers(RowsOf(answer))
  {
    if useMock then Mock.MockUsers else PatchUsers(RowsOf(answer))
  }

  /** A stored bet row, with the store's column names. */
  datatype BetRow = BetRow(id: string, user_id: string, race_id: string, investment: int,
                           return_amount: int, created_at: int)

  /** Reading a row renames the columns to the record's fields. */
  function ReadRow(row: BetRow): (b: Bet)
    ensures b.id == row.id && b.userId == row.user_id && b.raceId == row.race_id
    ensures b.investment == row.investment && b.returnAmount == row.return_amount
    ensures b.timestamp == row.created_at
  {
    Bet(row.id, row.user_id, row.race_id, row.investment, row.return_amount, row.created_at)
  }

  function ReadRows(rows: seq<BetRow>): (bets: seq<Bet>)
    ensures |bets| == |rows|
    ensures forall i :: 0 <= i < |rows| ==> bets[i] == ReadRow(rows[i])
  {
    if |rows| == 0 then [] else [ReadRow(rows[0])] + ReadRows(rows[1..])
  }

  /** All bets: the fixture, or the store's rows read as records (a failure is only logged). */
  function FetchBets(useMock: bool, loadTime: int, answer: Answer<BetRow>): (bets: seq<Bet>)
    ensures useMock ==> bets == Mock.MockBets(loadTime)
    ensures !useMock ==> bets == ReadRows(RowsOf(answer))
  {
    if useMock then Mock.MockBets(loadTime) else ReadRows(RowsOf(answer))
  }

  /** One participant's bets: the fixture's bets of that user, or the store's rows; a failure gives none. */
  function FetchUserBets(useMock: bool, loadTime: int, userId: string, answer: Answer<BetRow>): (bets: seq<Bet>)
    ensures useMock ==> bets == Filter(Mock.MockBets(loadTime), (b: Bet) => b.userId == userId)
    ensures !useMock && answer.failed ==> bets == []
    ensures !useMock && !answer.failed ==> bets == ReadRows(RowsOf(answer))
  {
    if useMock then Filter(Mock.MockBets(loadTime), (b: Bet) => b.userId == userId)
    else if answer.failed then []
    else ReadRows(RowsOf(answer))
  }

  /** In fixture mode a participant's bets are exactly the fixture bets with their id, in fixture order. */
  lemma MockUserBetsAreTheirs(loadTime: int, userId: string)
    ensures forall b :: b in FetchUserBets(true, loadTime, userId, Answer(None, false)) <==>
      b in Mock.MockBets(loadTime) && b.userId == userId
    ensures FetchUserBets(true, loadTime, "3", Answer(None, false)) == [Mock.MockBets(loadTime)[0]]
  {
    var bets := Mock.MockBets(loadTime);
    FilterSingle(bets, (b: Bet) => b.userId == "3", 0);
  }

  /** The row sent to the store for a new bet; the store adds the id and the creation time. */
  datatype InsertRecord = InsertRecord(user_id: string, race_id: string, investment: int, return_amount: int)

  function InsertRecordFor(p: BetPayload): (rec: InsertRecord)
    ensures rec.user_id == p.userId && rec.race_id == p.raceId
    ensures rec.investment == p.investment && rec.return_amount == p.returnAmount
  {
    InsertRecord(p.userId, p.raceId, p.investment, p.returnAmount)
  }

  /** The row the store keeps for an insert record, under the id and time it assigns. */
  function Stored(rec: InsertRecord, id: string, createdAt: int): (row: BetRow)
    ensures row.id == id && row.created_at == createdAt
  {
    BetRow(id, rec.user_id, rec.race_id, rec.investment, rec.return_amount, createdAt)
  }

  /** A bet written and read back keeps its user, race and amounts; id and time come from the store. */
  lemma InsertThenReadRoundTrip(p: BetPayload, id: string, createdAt: int)
    ensures ReadRow(Stored(InsertRecordFor(p), id, createdAt))
         == Bet(id, p.userId, p.raceId, p.investment, p.returnAmount, createdAt)
  {
  }

  /** The spreadsheet's user column: the display label when one is given and not empty, else the id. */
  function SheetUserId(p: BetPayload): (userId: string)
    ensures p.userName.Some? && |p.userName.value| > 0 ==> userId == p.userName.value
    ensures p.userName.None? || |p.userName.value| == 0 ==> userId == p.userId
  {
    if p.userName.Some? && |p.userName.value| > 0 then p.userName.value else p.userId
  }

  /** What is logged to the spreadsheet: the payload with its user column replaced. */
  function SheetPayload(p: BetPayload): BetPayload {
    p.(userId := SheetUserId(p))
  }

  /** The effects of creating a bet: the record inserted, the payload logged, and whether the insert failed. */
  datatype CreateOutcome = CreateOutcome(inserted: Option<InsertRecord>, logged: Option<BetPayload>, failed: bool)

  /**
    In fixture mode nothing is written. Otherwise the record is inserted and, only
    when the insert succeeded and a spreadsheet is configured, the payload is logged.
  */
  function CreateBet(useMock: bool, sheetConfigured: bool, p: BetPayload, insertFailed: bool): (out: CreateOutcome)
    ensures useMock ==> out == CreateOutcome(None, None, false)
    ensures !useMock ==> out.inserted == Some(InsertRecordFor(p)) && out.failed == insertFailed
    ensures out.logged.Some? <==> !useMock && !insertFailed && sheetConfigured
    ensures out.logged.Some? ==> out.logged.value == SheetPayload(p)
  {
    if useMock then CreateOutcome(None, None, false)
    else
      CreateOutcome(Some(InsertRecordFor(p)),
                    if !insertFailed && sheetConfigured then Some(SheetPayload(p)) else None,
                    insertFailed)
  }
}
