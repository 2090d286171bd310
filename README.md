# Keiba leaderboard — a Dafny model

This project models a small horse-race betting leaderboard, a Next.js app used at
one race meeting. Each participant plays a "horse" (a katakana horse name, with
their own name as the "jockey"). They report their bets on real races: a race,
the amount staked and the amount paid back. A report may be corrected later by a
newer one. The board shows each participant's totals and return rate, a rank for
each, and a star (the "investment king") on whoever staked the most.

The model covers:

- **The leaderboard derivation of the home page** (`Leaderboard`, `Latest`,
  `Sorting`). It has four steps:
  1. collapse the bet stream to the latest report per (participant, race);
  2. sum each participant's stakes and returns;
  3. flag the kings in place;
  4. sort by return rate, then by stake, and write standard competition ranks back
     onto the entries, which stay in participant order.

  The loops of the source are methods over arrays. They are proved equal to the
  specification functions `ValidBets`, `Tallies`, `Crowned` and `Standings`. The
  rank rule, the king rule and the correction rule are proved as lemmas about
  those functions.
- **The user ordering by the fixed list of horse names** (`NameOrder`), shared by
  the home page and the betting form.
- **The page's bet append and realtime insert** (`Home.HomePage`).
- **The cut-down reproduction script** (`Reproduce`), with its `Number(x || 0)`
  coercion and its own fixture.
- **The ranking card**: frame colour, horse number, crown and star, and the
  expand rule (`RankingCard`).
- **The news ticker**: announcement, the five latest reports looped twice in each of
  two identical strips, and the race and profit labels (`NewsTicker`).
- **The login page** as a state machine (`Login.LoginPage`): user selection and
  mode, sign-in with the master reset code, the name and PIN validators,
  registration through a confirmation dialog, and logout.
- **The bet-entry form**: race-id lookup and fallback, amount coercion, submit,
  guest PIN check and user change (`BettingModal.BettingForm`).
- **The value transforms of the data layer** (`Api`): the fixture fallback, the
  jockey-name patch, row and record mapping, and the spreadsheet payload.

Network, storage and the clock are parameters or state fields:
- a fetch receives the store's answer;
- writes to the store are appended to a `writes` log;
- the saved session is a field;
- navigation and reload are flags;
- "now", the fixture load time and random ids are arguments.

`returnRate` is an exact `real`, and timestamps are integers.

Two behaviours one might expect are absent from the code:
- There is no comma-stripping amount coercion. The page adds raw amounts. The
  form's `Number("300,000") || 0` is 0, as `GroupedFigureCountsZero` shows.
- There is no rank sentinel 999. Entries start at rank 0. The 999 in the name
  ordering is only the sort key of unlisted names.

## Model

| member | source | states |
|---|---|---|
| Latest.CollapseLatest | app/page.tsx:88-99 | The map-filling loop yields the latest view: exactly one record per (user, race) key, and it is that key's survivor. A survivor has the largest timestamp of its key and is strictly later than every earlier record of that key. |
| Latest.LatestOfIsLatestView | app/page.tsx:88-99 | The collapse keeps one record per key, with the latest timestamp; on a tie the earliest record wins. |
| Latest.AppendSupersededIsNoOp | app/page.tsx:93 | Appending a report that is not strictly later than the stored one for its key leaves the valid bets unchanged. |
| Latest.AppendCorrectionReplaces | app/page.tsx:93-94 | Appending a strictly later report replaces the stored one in place. The map keeps its insertion position. |
| Latest.DistinctStreamIsItsOwnView | app/page.tsx:88-99 | A stream with distinct keys collapses to itself, in order. |
| Latest.NewestRecordIsKept | app/page.tsx:88-99 | A report newer than every other is kept. It is the only valid bet of its key. |
| Leaderboard.CorrectionReplacesReport | app/page.tsx:88-99 | A strictly later report for a (user, race) replaces the earlier one among the valid bets. |
| Leaderboard.SupersededReportChangesNothing | app/page.tsx:93 | A report that is not strictly later than the current one leaves the whole board unchanged. |
| Leaderboard.CorrectionExample | app/page.tsx:85-157 | A loss reported first and corrected later counts only as corrected: stake 1000, return 2000, rate 200%, rank 1, king. |
| Leaderboard.TimestampTieKeepsFirst | app/page.tsx:93 | Two reports with the same timestamp: the first one counts. |
| Leaderboard.ReturnRate | app/page.tsx:109 | The rate is always defined. It is 0 without a positive stake; otherwise rate·stake = 100·return. |
| Leaderboard.Tallies | app/page.tsx:102-120 | One entry per user, in user order: entry i carries user i, rank 0 and no king flag. |
| Leaderboard.StandingIsTally | app/page.tsx:102-120 | Apart from rank and king flag, each board entry is its user's tally over the valid bets. |
| Leaderboard.FiguresAreConsistent | app/page.tsx:103-112 | Entry i carries user i's fields, net profit is return minus stake, and the rate agrees with both. |
| Leaderboard.NoBetsNoFigures | app/page.tsx:103-109 | A user with no bet has zero stake, return, profit and rate. |
| Leaderboard.KingIsTopInvestor | app/page.tsx:123-128 | King iff the entry's stake is positive and no stake on the board is larger. Ties give several kings; all-zero gives none. |
| Leaderboard.MarkKings | app/page.tsx:123-128 | The in-place pass sets the flag exactly on the entries at the positive maximum. Nothing else changes. |
| Leaderboard.SortByStanding | app/page.tsx:132-137 | The sorted copy is a permutation, in descending rate and then descending stake order. |
| Leaderboard.PositionalRankCountsBetter | app/page.tsx:140-149 | In the sorted copy, the predecessor rule (same standing keeps the rank, else i+1) gives 1 + the number of entries strictly ahead. |
| Leaderboard.RankIgnoresTieOrder | app/page.tsx:132-149 | Two sorted orders of the same entries give every entry the same rank, whatever the order of ties. |
| Leaderboard.AssignRanks | app/page.tsx:140-153 | The rank loop changes only ranks, and only on the first entry of each id (found with `find`). With distinct ids every entry gets 1 + the number strictly ahead. |
| Leaderboard.ComputeLeaderboard | app/page.tsx:85-157 | The effect: one entry per user, in user order, equal to the crowned tally apart from rank. With distinct ids it is exactly `Standings`; duplicates after the first keep rank 0. |
| Leaderboard.RankBounds | app/page.tsx:140-153 | Every rank lies in 1..n. |
| Leaderboard.RankOrder | app/page.tsx:140-153 | Strictly ahead means a strictly smaller rank; equal standing means an equal rank. |
| Leaderboard.TopRankExists | app/page.tsx:140-153 | A non-empty board has someone at rank 1. |
| Leaderboard.CountBetterPermutation | app/page.tsx:132-153 | The number of entries ahead depends only on which entries there are, not on their order. |
| NameOrder.OrderIndex | app/page.tsx:42-45 | A listed name's key is its position in the fixed list; an unlisted name's key is 999. |
| NameOrder.SortByOrderedNames | app/page.tsx:41-46 | The sorted users are a permutation of the fetched ones. |
| NameOrder.DisplayOrder | app/page.tsx:41-46 | Listed names come in list order, and every listed name comes before every unlisted one. |
| NameOrder.TiesKeepFetchOrder | components/BettingModal.tsx:43-47 | Users with the same key, in particular all unlisted users, keep their fetched order. |
| NameOrder.ListedInOrderIsUnchanged | app/page.tsx:16-20 | A list already in the fixed order is left as it is. |
| Sorting.SortIsStable | app/page.tsx:41-46 | The sort keeps the input order among elements with equal keys. |
| Home.HomePage.Load | app/page.tsx:36-51 | After the initial fetch the users are in display order and the bets are as fetched. |
| Home.HomePage.Refresh | app/page.tsx:85-157 | The board is recomputed from the current users and bets, with the guarantees of `ComputeLeaderboard`: the specified figures and kings for every user, rank 0 for a later entry repeating an id, and exactly the specified leaderboard when ids are distinct. |
| Home.SheetLabel | app/page.tsx:161-164 | The sheet label is "name 【jockey】" for a known user, and "Unknown" otherwise. |
| Home.HomePage.AddBet | app/page.tsx:159-171 | Sends the draft with its label. Without a store, it appends a local record under the given id and time. |
| Home.LocalBetTakesEffect | app/page.tsx:167-170 | A bet appended later than every stored one is a valid bet, and the only valid bet of its (user, race). |
| Home.SheetShowsLabel | app/page.tsx:162-165 | The spreadsheet's user column of a bet from this page is its label, never the bare id. |
| Home.HomePage.ReceiveInsert | app/page.tsx:58-79 | A realtime insert is appended to the bets. |
| Fixture.MockTallies | lib/mock.ts:60-66 | The fixture gives five users a stake of 10000 with their returns; the other seven have nothing. |
| Fixture.MockLeaderboardRanks | app/page.tsx:85-157 | On the fixture, users 3, 1, 2, 12 and 10 rank 1 to 5, with their rates. |
| Fixture.MockNonBettorsShareSixth | app/page.tsx:140-153 | On the fixture, the seven users without a stake share rank 6. |
| Fixture.MockLeaderboardKings | app/page.tsx:123-128 | On the fixture, the kings are exactly users 1, 2, 3, 10 and 12. |
| Fixture.MockUsersAreInDisplayOrder | lib/mock.ts:3-16 | The fixture users are already in the fixed name order. |
| Fixture.MockBetsAreAllValid | lib/mock.ts:60-66 | No fixture bet supersedes another. |
| Reproduce.Coerced | reproduce_issue.js:33 | `Number(x \|\| 0)`: an absent amount gives 0, a present one gives itself. |
| Reproduce.AbsentAmountsAddNothing | reproduce_issue.js:33 | Bets without an amount add nothing to a total. |
| Reproduce.RowsFollowUsers | reproduce_issue.js:31-39 | One row per user, in user order, users without bets included. |
| Reproduce.KingIsLargestPositiveTotal | reproduce_issue.js:42-49 | King iff the total is positive and no other total is larger. |
| Reproduce.FlagKings | reproduce_issue.js:45-49 | The in-place pass flags exactly the rows at the positive maximum. Nothing else changes. |
| Reproduce.Calculate | reproduce_issue.js:17-52 | `calculate()` (collapse, totals, king pass) yields exactly the king table. |
| Reproduce.ScriptFixture | reproduce_issue.js:2-14 | On the script's own fixture the maximum is 300000, user "7" is the only king, and "12" and "1" are not. |
| Reproduce.ScriptBetsAreAllValid | reproduce_issue.js:19-28 | No bet of the script's fixture supersedes another. |
| RankingCard.WakuColorClass | components/RankingCard.tsx:27-38 | Numbers 1 to 4 get their own frame, at index n−1. Numbers 5 to 12 share frames in pairs (index 4 + (n−5) div 2). Others get gray. |
| RankingCard.HorseNumber | components/RankingCard.tsx:42 | The horse number is list position + 1, not the rank. |
| RankingCard.BoardPositionsHaveFrames | components/RankingCard.tsx:27-42 | Every position of a board of up to twelve gets a real frame colour. |
| RankingCard.CrownMeansNobodyAhead | components/RankingCard.tsx:101 | On the board, the crown (rank 1) shows exactly for the participants nobody is strictly ahead of. |
| RankingCard.StarMeansTopInvestor | components/RankingCard.tsx:100 | On the board, the star (king) shows exactly for the participants with the largest positive stake. |
| RankingCard.Step | components/RankingCard.tsx:46-48 | A click on one's own card flips the pane; a click on someone else's card does nothing; a click inside the pane closes it. |
| RankingCard.ToggleTwiceRestores | components/RankingCard.tsx:46-48 | Toggling one's own card twice restores the pane. |
| RankingCard.OthersCardsStayClosed | components/RankingCard.tsx:44-48 | A card that is not the signed-in user's never opens, whatever the clicks. |
| RankingCard.Card.HandleToggle | components/RankingCard.tsx:46-48 | The state field follows `Step` for a card click. |
| RankingCard.Card.CloseDetails | components/RankingCard.tsx:113-116 | The detail click closes the pane. |
| NewsTicker.SourceBets | components/NewsTicker.tsx:40 | min(5, n) bets taken from the input, in non-increasing timestamp order. Every bet newer than a shown one is shown. |
| NewsTicker.FirstItemIsNewest | components/NewsTicker.tsx:40 | The first shown bet is at least as recent as any bet. |
| NewsTicker.SameTimeKeepsOrder | components/NewsTicker.tsx:40 | Up to five reports with one timestamp are shown in their stored order. |
| NewsTicker.MockTickerOrder | components/NewsTicker.tsx:40 | The fixture reports are shown in fixture order. |
| NewsTicker.LoopBets | components/NewsTicker.tsx:45 | The loop list is the source twice, of length 2·min(5, n). |
| NewsTicker.Render | components/NewsTicker.tsx:16-110 | An announcement wins. Otherwise no bets render nothing, and bets render two identical strips, each of 2·min(5, n) items built from the loop list. |
| NewsTicker.ItemsOnScreen | components/NewsTicker.tsx:86-110 | With bets and no announcement, 4·min(5, n) items are on screen. |
| NewsTicker.AnnouncementIgnoresBets | components/NewsTicker.tsx:16-37 | While an announcement is set, bets and users make no difference. |
| NewsTicker.HiddenIffNothingToShow | components/NewsTicker.tsx:47 | Nothing renders iff there is no announcement and no bet. |
| NewsTicker.LoopRepeats | components/NewsTicker.tsx:45 | The second half of the loop repeats the first, item for item. |
| NewsTicker.RaceName | components/NewsTicker.tsx:52-55 | A known race shows as venue kanji + number + "R"; an unknown one shows its raw id. |
| NewsTicker.RaceLabelIsInjective | components/NewsTicker.tsx:54 | The label determines the venue and the race number. |
| NewsTicker.UserName | components/NewsTicker.tsx:51-64 | A known user with a name shows that name; an unknown user, or one with an empty name, shows as "Unknown". The text is never empty. |
| NewsTicker.UserNameShowsListedName | components/NewsTicker.tsx:51-64 | The first listed user with an id, when named, is shown under that name. |
| NewsTicker.Item | components/NewsTicker.tsx:57-74 | Profit is return minus stake. "WIN!", the "+" sign and the yellow class appear iff profit > 0. |
| Login.SortByNumericId | app/login/page.tsx:40 | The list is a permutation, in ascending numeric id order for digit ids. |
| Login.LoginPage.LoadData | app/login/page.tsx:36-55 | The users are sorted by id. A saved session sets the current user, the selection and the name, and login mode. |
| Login.ModeFor | app/login/page.tsx:72-76 | Registration mode iff the user still has PIN "0000". |
| Login.LoginPage.HandleUserSelect | app/login/page.tsx:57-78 | Sets the selection and clears both PINs and the error. A known id fills in the name and the mode; an unknown one leaves them. |
| Login.LoginStep | app/login/page.tsx:82-135 | No user: nothing. "1155": the reset, before any PIN check. Wrong PIN: failure. A changed name must be a horse name; otherwise sign-in, renamed iff the name changed. |
| Login.LoginPage.HandleLogin | app/login/page.tsx:82-135 | Performs `LoginStep`. The reset opens its confirmation. A wrong PIN sets the error and leaves session and store alone. Sign-in saves the session and navigates. |
| Login.LoginPage.SignIn | app/login/page.tsx:124-129 | A renamed user is written to the store and renamed in the list, where the selected object lives. The session holds the user. |
| Login.CheckRegistration | app/login/page.tsx:141-170 | Rejects in a fixed order: bad name, then a PIN that is not four digits, then "0000". Each check reports iff the earlier ones passed. |
| Login.LoginPage.HandleRegister | app/login/page.tsx:137-183 | Opens the matching error dialog, or the confirmation holding user, name and PIN. Without a selection it does nothing. |
| Login.LoginPage.ConfirmModal | app/login/page.tsx:88-106 | Confirming the reset writes "0000" for every listed user and then reports completion, whose confirmation reloads. A registration is performed; an error dialog closes. |
| Login.LoginPage.PerformRegister | app/login/page.tsx:185-199 | Writes the PIN (and a changed name). The session user is the selected one with the new name and PIN and nothing else changed. Then it navigates. |
| Login.RegisterWrites | app/login/page.tsx:188-191 | The PIN write comes first; a name write is added only when the name changed. |
| Login.ResetWrites | app/login/page.tsx:95 | One "0000" write per user, in list order. |
| Login.RegisterWritesAreAcceptable | app/login/page.tsx:137-199 | A registration that passed the checks only writes a horse name and a four-digit PIN other than "0000". |
| Login.FixtureNamesAreHorseNames | app/login/page.tsx:113 | The pattern accepts the fixture names and rejects a one-character name, digits, hiragana and ten characters. |
| Login.LoginPage.CancelModal | app/login/page.tsx:346 | Cancel, offered only by the two confirmations, closes the dialog. |
| Login.LoginPage.HandleLogout | app/login/page.tsx:201-209 | Clears session, current user, selection, PIN and name, and returns to login mode. |
| BettingModal.FindRaceAt | components/BettingModal.tsx:63 | Finds a race of the table at that venue and number. None iff there is none. |
| BettingModal.RaceIdFor | components/BettingModal.tsx:69 | The id of the found race when it is non-empty; otherwise (no race, or a race with an empty id) the lower-case venue followed by the number. |
| BettingModal.OfferedRacesAreInTable | components/BettingModal.tsx:63-69 | Every offered venue and number 1 to 12 names a table race, so the fallback is never used. |
| BettingModal.DefaultRaceId | components/BettingModal.tsx:30-31 | The starting choice, Kokura 11, is race "k11". |
| BettingModal.RaceNumbers | components/BettingModal.tsx:188-191 | The selectable race numbers are exactly 1 to 12. |
| BettingModal.Amount | components/BettingModal.tsx:74-75 | `Number(s) \|\| 0`: a digit string gives its value (empty gives 0), a signed digit string its signed value, and every other string (a comma, letters, a lone sign) 0. |
| BettingModal.AmountOfPrintedNumber | components/BettingModal.tsx:74-75 | An amount typed as JavaScript prints it reads back as itself. |
| BettingModal.GroupedFigureCountsZero | components/BettingModal.tsx:74 | "300,000" counts as 0. |
| BettingModal.Draft | components/BettingModal.tsx:71-76 | The draft carries the selected user, the race id and both coerced amounts. |
| BettingModal.BettingForm.Load | components/BettingModal.tsx:39-58 | The users arrive in name order. A saved session signs in and preselects its user. |
| BettingModal.BettingForm.HandleSubmit | components/BettingModal.tsx:65-81 | With a selection: hands over the draft, clears both amounts and asks to close. Without one: no change at all. |
| BettingModal.BettingForm.HandleGuestLogin | components/BettingModal.tsx:83-91 | A matching PIN signs in the selected user. A mismatch only raises the error. Without a selection: no change. |
| BettingModal.BettingForm.HandleUserChange | components/BettingModal.tsx:93-98 | Selects the user with that id (or none) and clears the guest PIN and the error. |
| BettingModal.BettingForm.SelectLocation | components/BettingModal.tsx:174-177 | The venue button sets the venue. |
| BettingModal.BettingForm.SelectRaceNumber | components/BettingModal.tsx:188-191 | Button i chooses race i + 1. |
| Api.FetchUsers | lib/api.ts:9-22 | The fixture without a store. Otherwise the patched rows, with no rows giving the empty list. |
| Api.PatchJockey | lib/api.ts:16-19 | Rewrites exactly "富田" to "冨田" and leaves every other field alone. |
| Api.PatchUsers | lib/api.ts:16-19 | Keeps length and order and patches each user. |
| Api.PatchIsIdempotent | lib/api.ts:16-19 | After the patch no user has the misspelling, and patching again changes nothing. |
| Api.PatchLeavesOthers | lib/api.ts:16-19 | A user without the misspelling comes through unchanged. |
| Api.RowsOf | lib/api.ts:16-53 | An absent answer gives the empty list. |
| Api.ReadRow | lib/api.ts:46-53 | Renames user_id, race_id, return_amount and created_at, and keeps id and investment. |
| Api.FetchBets | lib/api.ts:36-54 | The fixture without a store. Otherwise the rows read as records, in order. |
| Api.FetchUserBets | lib/api.ts:56-78 | The fixture filtered by user without a store. A failed query gives none; otherwise the rows read as records. |
| Api.MockUserBetsAreTheirs | lib/api.ts:57 | In fixture mode a user's bets are exactly the fixture bets with that id. |
| Api.InsertThenReadRoundTrip | lib/api.ts:113-118 | Inserting and reading back keeps user, race, stake and return. The id and time come from the store. |
| Api.SheetUserId | lib/api.ts:97 | The sheet's user column is the label when it is present and not empty, else the id. |
| Api.CreateBet | lib/api.ts:106-125 | Fixture mode writes nothing. Otherwise the record is inserted, and the sheet is written only if the insert succeeded and a sheet is configured. |
| Common.IntTextIsInjective | components/NewsTicker.tsx:54 | Distinct integers print differently. |
| Types.FindUser | app/page.tsx:161 | `find` by id: the first user with that id, and None iff there is none. |

## Left out

- Store I/O is not modelled as I/O. This covers the Supabase reads and writes, the realtime subscription, the spreadsheet `fetch`, `resetBets` and the status calls. A fetch's answer is an argument; writes go to a log or a returned outcome.
- `localStorage` and the router are fields and flags of the page classes (`session`, `navigatedHome`, `reloadRequested`). The `router.refresh()` in the logout handler (app/login/page.tsx:208) is not modelled: it refetches server data and leaves the client state alone. JSON round-trips of the session are taken to be the identity.
- Rendering and animation are left out. So are `CelebrationOverlay`, `ConfirmModal` (apart from its confirm and cancel buttons), `AdminControls` and the layout. The ranking card's detail pane and `toFixed`/`toLocaleString` formatting are display only.
- The `setTimeout` flashes that clear the error flags after 500 ms are not modelled. The flag stays set until the next handler clears it.
- `Math.random` ids, `new Date()` and the fixture's load time are arguments (`newId`, `now`, `loadTime`).
- The order in which concurrent promises resolve is not modelled. Each handler runs to completion in one step, and writes are logged in the order they are issued.
- ReturnRate: it is an exact `real`. Floating-point rounding, and doubles that could tie where the rationals do not, are not modelled.
- Timestamps are integers. ISO date parsing is not modelled, nor is the NaN case where `>` is false.
- The composite map keys `${userId}-${raceId}` (and the script's `${userId} -${raceId} `) are pairs. Ids containing the separator could collide in the source; they cannot in the model.
- ComputeLeaderboard: its full ranking contract holds only when user ids are distinct. With duplicate ids it states that only ranks change and that later duplicates keep rank 0.
- Coerced: the script's amounts are modelled as an absent or integer value. A string amount, which `Number` would parse or turn into NaN (as for "300,000"), is not modelled; such a NaN would make the total and `Math.max` NaN, and then nobody would be king.
- Amounts and their sums are JavaScript doubles in the source, exact only up to 2^53. The model's integers are unbounded, so very large sums do not lose precision.
- The fixture bets all carry one `loadTime`. The source calls `new Date()` once per bet, so the ticker's fixture order (`MockTickerOrder`) holds only when those calls return the same instant.
- The handlers carry as preconditions the conditions under which the page shows their buttons: sign-in only in login mode and not loading, registration only in register mode and not loading, cancel only on the two confirmations, logout only while signed in, and in the form the submit and race buttons only when signed in, the guest PIN and drop-down only when not. `ConfirmModal` and the data-loading handlers may be called in any state; with no dialog open `ConfirmModal` does nothing.
- Amount: decimals, exponents, hexadecimal, surrounding whitespace and "Infinity" are numbers to JavaScript's `Number` but give 0 in the model.
- SortByNumericId: the ascending order is stated only for digit-only ids. JavaScript's order under a NaN comparator is implementation-defined.
- The three copies of the fixed name list (home page, login page, betting form) are one constant, `NameOrder.OrderedNames`. The login page's copy is not used for sorting there.
- In the source, `selectedUser.name = editName` mutates the object shared with the user list. The model writes the renamed user into the list at that user's position.
- Characters are Dafny `char`s, not UTF-16 code units. The katakana of the name pattern lie in the Basic Multilingual Plane, so the length bound 2 to 9 is the same.
- The race descriptions (name, conditions, start time) and the user colour are display data. Only ids, venues and numbers of the race table are modelled.
