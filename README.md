# Draft engine of the hsappsoccer fantasy-football app

This project models the draft engine of a SwiftUI fantasy-soccer app. The engine lives in
`hsappsoccer/DraftBoardView.swift` and runs over the persisted record classes of
`hsappsoccer/Item.swift`.

Twelve fantasy teams are meant to draft real footballers round by round. A view holds:

- the current `Draft`, with its round counter, within-round pick counter and team index;
- the selected player;
- the search text and the position filter;
- a countdown clock.

Only the team flagged as the user's can draft, either by button or by auto-draft when the clock
reaches zero. A board grid shows one row per team and one column per round, with the drafted
player in each cell.

As written, a draft over the mock league never gets past the second pick of round 1. The user's
team holds draft position 1, so its first pick moves the turn to Team B. Only `draftPlayer` calls
`moveToNextPick`, and `draftPlayer` returns at once when it is not the user's turn. From then on
the clock sits at 0 and every tick only re-selects a player (`DraftBoard.StuckAfterFirstPick`,
`DraftBoard.DraftBoardView.Tick`). The lemmas about round 2 and later hold for every well-formed
draft. They describe what the clock and the grid would do if the counters got that far,
which the mock league never lets them do.

The model is split by source structure:

| module | file | models |
|---|---|---|
| `Safe` | `safe.dfy` | `Optional` and the bounds-checked `array[safe: i]` subscript |
| `Schedule` | `schedule.dfy` | the turn arithmetic of `moveToNextPick`, on values (`Turn`) |
| `Models` | `models.dfy` | the `@Model` reference classes `Player`, `Team`, `League`, `Draft`, `DraftPick`, `DraftSettings` |
| `PlayerPool` | `player_pool.dfy` | the `filteredPlayers` pipeline: undrafted, position, search text, sort by points |
| `BoardGrid` | `board_grid.dfy` | the pure helpers of `DraftBoardGridView`: snake pick numbers, cell occupant, cell colour |
| `DraftBoard` | `draft_board.dfy` | the `DraftBoardView` state and its imperative operations |

The record classes are Dafny classes:

- Fields that the draft engine writes are `var`.
- Fields it never writes are `const`, such as a player's identity and statistics, a team's name and draft position, a league's `isActive` flag and a draft's `availablePlayers`.
- Arrays that are appended to or reversed in place (`Team.players`, `Draft.draftHistory`, `Draft.draftOrder`, `League.teams`) are `seq` fields that the methods reassign.

The view's fetched collections (`players`, `teams`, `drafts`) are fields of `DraftBoard.DraftBoardView`. Inserting an object into the store appends it to the matching field.

`DraftBoard.WellFormed` ties a draft to the schedule. It holds when the counters equal `Schedule.TurnAt(n)` after `n` recorded picks and entry `i` of the history records `TurnAt(i)`. A new mock draft satisfies it, and every pick preserves it. `Schedule.ReachedTurn` shows that `TurnAt(n)` is exactly `n` calls of `moveToNextPick` from the initial state.

The model follows the code, including three places where the behaviour differs from what the
app's design describes. Each is stated as a lemma:

- **Turns are not snaked.** `currentTeamIndex` only cycles mod 12. `draftOrder` is reversed at each round boundary but never read.
  - `Schedule.TeamIndexIgnoresRound` shows the same team is on the clock at the same pick of every round.
  - `DraftBoard.ClockAgreesWithBoardOnlyInOddRounds` shows that in even rounds the team on the clock is not the one the snake-ordered grid assigns to that pick.
- **Pick numbers disagree.** Each history entry stores the within-round pick (1..12). The grid looks cells up and colours them by absolute pick numbers.
  - `DraftBoard.LaterRoundsLookEmpty` shows that, however far a well-formed draft has got, no cell of round 2 or later shows a player or the current-pick colour.
  - `DraftBoard.FirstRoundCell` shows the round-1 cells show the history's first twelve entries.
- **Auto-draft only works on the user's turn.** `autoDraft` goes through `draftPlayer`, whose guard requires the user's team.
  - `DraftBoard.UserTurnOnlyAtFirstPick` shows that with the mock league this happens only when the within-round pick is 1.
  - `DraftBoard.StuckAfterFirstPick` shows that after the first pick it is never the user's turn again in round 1, so the turn never advances again.
  - `DraftBoard.DraftBoardView.Tick` states that otherwise the clock stays at 0 and the draft does not change.
  - The clock starts at 60 and is reset to 90 after each pick.
- `draftPlayer` does not check `isDrafted`, and auto-draft uses whatever position filter and search text are currently selected.

## Model

| member | source | states |
|---|---|---|
| Safe.SafeAt | hsappsoccer/DraftBoardView.swift:542-545 | the element is returned exactly when the index is one of the array's indices, and it is the element at that index; otherwise the result is nil |
| Schedule.SwiftRemainder | hsappsoccer/DraftBoardView.swift:259 | Swift's truncating `% 12`: congruent to the dividend, in 0..11 for a non-negative dividend and in -11..0 for a negative one |
| Schedule.Reverse | hsappsoccer/DraftBoardView.swift:255 | `Array.reverse()` keeps the length |
| Schedule.ReverseAt | hsappsoccer/DraftBoardView.swift:255 | element `i` of the reversal is element `n-1-i` of the original |
| Schedule.ReversePermutes | hsappsoccer/DraftBoardView.swift:255 | reversing keeps the multiset of elements |
| Schedule.ReverseInvolutive | hsappsoccer/DraftBoardView.swift:255 | reversing twice gives back the original order |
| Schedule.AdvanceSpec | hsappsoccer/DraftBoardView.swift:245-260 | one `moveToNextPick`: the round stays or goes up by one, and goes up exactly when the pick counter passes 12; the order is reversed exactly in that case; the team index always changes and stays in 0..11; from in-range counters the result is in range and one pick later |
| Schedule.AdvanceKeepsPickInRange | hsappsoccer/DraftBoardView.swift:248-253 | a pick counter in 1..12 stays in 1..12 |
| Schedule.AdvancePermutesOrder | hsappsoccer/DraftBoardView.swift:255 | the draft order after a step is a permutation of the one before |
| Schedule.ReverseOrderAfter | hsappsoccer/DraftBoardView.swift:255 | one more round boundary reverses the order of the previous boundary count once more |
| Schedule.AdvanceNClosedForm | hsappsoccer/DraftBoardView.swift:245-260 | `n` steps from in-range counters give round, pick, team index and order in closed form (division and remainder by 12 of the completed picks) |
| Schedule.AdvanceFromSlot | hsappsoccer/DraftBoardView.swift:245-260 | one step from the closed form after `m` picks is the closed form after `m + 1` picks |
| Schedule.WholeRounds | hsappsoccer/DraftBoardView.swift:245-260 | `12k` steps from in-range counters advance the round by `k`, restore pick and team index, and leave the order as after `k` boundaries; so the team index returns to its start after 12 picks |
| Schedule.EvenRoundsRestoreOrder | hsappsoccer/DraftBoardView.swift:251-256 | after two (any even number of) round boundaries the draft order and all counters except the round are as they were |
| Schedule.TurnAt | hsappsoccer/DraftBoardView.swift:245-260 | the turn after `n` picks has in-range counters, is `n` picks from the start, and has team index equal to pick minus one |
| Schedule.ReachedTurn | hsappsoccer/DraftBoardView.swift:245-260 | `n` calls of `moveToNextPick` from round 1, pick 1, index 0 and order 1..12 reach exactly `TurnAt(n)` |
| Schedule.AdvanceTurnAt | hsappsoccer/DraftBoardView.swift:245-260 | one step from `TurnAt(n)` is `TurnAt(n+1)` |
| Schedule.TurnAtOrder | hsappsoccer/DraftBoardView.swift:251-256 | the order is 1..12 in odd rounds and 12..1 in even rounds |
| Schedule.TeamIndexIgnoresRound | hsappsoccer/DraftBoardView.swift:255-259 | 12 picks later the same team index and pick are current one round later while the order is reversed: the order is not used to choose the team |
| Models.Player.constructor | hsappsoccer/Item.swift:32-52 | a new player keeps the given identity and statistics, omitted counters are 0, and it is undrafted with no drafting team, round or pick |
| Models.Team.constructor | hsappsoccer/Item.swift:65-72 | a new team keeps its identity, draft position and user flag (false by default) and has an empty roster |
| Models.DraftSettings.constructor | hsappsoccer/Item.swift:151-160 | defaults: 15 rounds, 90 seconds per pick, quotas GK 2, DEF 5, MID 5, FWD 3, whose total is the number of rounds |
| Models.DefaultQuotasFillRounds | hsappsoccer/Item.swift:152-159 | the default position quotas sum to the default 15 rounds |
| Models.League.constructor | hsappsoccer/Item.swift:85-92 | a new league has no teams, is inactive and has fresh default draft settings |
| Models.DraftPick.constructor | hsappsoccer/Item.swift:171-177 | a pick stores round, pick, team index and player exactly as given |
| Models.Draft.constructor | hsappsoccer/Item.swift:109-120 | a new draft is at round 1, pick 1, team index 0, snake, inactive, with empty order, available players and history |
| PlayerPool.ContainsIgnoringCaseAt | hsappsoccer/DraftBoardView.swift:130-131 | the case-insensitive containment holds exactly when some suffix of the text starts with the needle, ignoring case |
| PlayerPool.ContainsLongerNeedle | hsappsoccer/DraftBoardView.swift:130-131 | a text containing `needle + more` contains `needle` |
| PlayerPool.Undrafted | hsappsoccer/DraftBoardView.swift:123 | a sub-multiset of the players containing exactly the players that are not drafted |
| PlayerPool.AtPosition | hsappsoccer/DraftBoardView.swift:126 | a sub-multiset containing exactly the players at the chosen position |
| PlayerPool.Matching | hsappsoccer/DraftBoardView.swift:129-132 | a sub-multiset containing exactly the players whose name or club contains the search text, ignoring case |
| PlayerPool.UndraftedCount | hsappsoccer/DraftBoardView.swift:123 | an undrafted player is kept as often as it occurs, a drafted one not at all |
| PlayerPool.AtPositionCount | hsappsoccer/DraftBoardView.swift:126 | a player at the position is kept as often as it occurs, any other not at all |
| PlayerPool.MatchingCount | hsappsoccer/DraftBoardView.swift:129-132 | a player whose name or club contains the text is kept as often as it occurs, any other not at all |
| PlayerPool.InsertByPoints | hsappsoccer/DraftBoardView.swift:135 | inserting into a list in descending order of points keeps it descending and adds exactly that player |
| PlayerPool.PrependKeepsOrder | hsappsoccer/DraftBoardView.swift:135 | a player with at least the head's points can be put in front of a list in descending order of points |
| PlayerPool.SortByPoints | hsappsoccer/DraftBoardView.swift:135 | the sort is a permutation in non-increasing order of points |
| PlayerPool.Eligible | hsappsoccer/DraftBoardView.swift:123-132 | the three filters keep a sub-multiset of the players, exactly the undrafted ones that the position (unless "ALL") and the non-empty search text admit |
| PlayerPool.EligibleCount | hsappsoccer/DraftBoardView.swift:120-132 | the three filters keep each undrafted player the position and search text admit exactly as often as it occurs in the players, and drop every other player |
| PlayerPool.AvailableCount | hsappsoccer/DraftBoardView.swift:120-139 | `filteredPlayers` holds each admitted undrafted player exactly as often as the players do, and no other player |
| PlayerPool.Available | hsappsoccer/DraftBoardView.swift:120-139 | `filteredPlayers` is a sub-multiset of the players whose members are exactly the undrafted players the filters admit, in non-increasing order of points |
| PlayerPool.BestAvailable | hsappsoccer/DraftBoardView.swift:239 | the first filtered player is absent exactly when no undrafted player is admitted; when present it is an undrafted admitted player with at least as many points as every other one |
| PlayerPool.NarrowingPositionShrinks | hsappsoccer/DraftBoardView.swift:126 | choosing a position never gives a longer list than "ALL" |
| PlayerPool.SearchingShrinks | hsappsoccer/DraftBoardView.swift:129-132 | a search text never gives a longer list than the empty one |
| PlayerPool.ExtendingSearchShrinks | hsappsoccer/DraftBoardView.swift:129-132 | typing more search text never gives a longer list |
| BoardGrid.PickForTeam | hsappsoccer/DraftBoardView.swift:378-387 | for draft position 1..12 and round r ≥ 1 the pick number is in `(r-1)*12+1 .. r*12` |
| BoardGrid.OwnerOfPick | hsappsoccer/DraftBoardView.swift:378-387 | the inverse of the snake numbering gives a draft position in 1..12 and a round ≥ 1 |
| BoardGrid.PickOwnerRoundTrip | hsappsoccer/DraftBoardView.swift:378-387 | every absolute pick number is the pick of its owner's team in its owner's round |
| BoardGrid.TeamRoundTrip | hsappsoccer/DraftBoardView.swift:378-387 | the owner of a team's pick in a round is that team and round |
| BoardGrid.RoundIsInjective | hsappsoccer/DraftBoardView.swift:378-387 | within a round no two draft positions get the same pick number |
| BoardGrid.RoundCoversItsPicks | hsappsoccer/DraftBoardView.swift:378-387 | every pick number of round r's range is owned, in round r, by one of the 12 positions; with injectivity this makes the numbering a bijection onto the range |
| BoardGrid.SnakeOffsets | hsappsoccer/DraftBoardView.swift:380-386 | position p gets place p in odd rounds and 13-p in even rounds |
| BoardGrid.ConsecutivePlacesSumTo13 | hsappsoccer/DraftBoardView.swift:380-386 | a team's places in two consecutive rounds add up to 13 |
| BoardGrid.LastPicksFirstNextRound | hsappsoccer/DraftBoardView.swift:380-386 | the team picking last in a round picks first in the next |
| BoardGrid.PlayerForPick | hsappsoccer/DraftBoardView.swift:389-391 | the cell shows nil exactly when no history entry has the pick number, and otherwise the player of the first entry that has it |
| BoardGrid.FirstEntryShown | hsappsoccer/DraftBoardView.swift:389-391 | an entry with the pick number and no earlier entry with it is the one whose player the cell shows |
| BoardGrid.PickBackground | hsappsoccer/DraftBoardView.swift:393-401 | trichotomy: current exactly when equal to the current pick, completed exactly when lower, upcoming exactly when higher |
| BoardGrid.BackgroundIsMonotone | hsappsoccer/DraftBoardView.swift:393-401 | completed cells lie below every upcoming one |
| BoardGrid.LaterRoundCellsLookUndrafted | hsappsoccer/DraftBoardView.swift:389-401 | with history picks and current pick in 1..12, every cell of round 2 or later is empty and upcoming |
| DraftBoard.RecordingNextTurn | hsappsoccer/DraftBoardView.swift:214-221 | appending an entry for the turn that is due keeps the history in schedule |
| DraftBoard.WellFormedCounters | hsappsoccer/DraftBoardView.swift:245-260 | in a draft reached by picks the counters are in range, count the recorded picks, the team index is pick minus one, and the order is 1..12 or its reversal by parity of the round |
| DraftBoard.HistoryEntry | hsappsoccer/DraftBoardView.swift:214-218 | history entry i stores round i/12+1, the within-round pick i%12+1 (never above 12) and team index i%12 |
| DraftBoard.TeamOnTheClock | hsappsoccer/DraftBoardView.swift:179-183 | with the mock league the team on the clock is the one whose draft position is the within-round pick |
| DraftBoard.UserTurnOnlyAtFirstPick | hsappsoccer/DraftBoardView.swift:185-189 | with the mock league it is the user's turn exactly when the within-round pick is 1 |
| DraftBoard.StuckAfterFirstPick | hsappsoccer/DraftBoardView.swift:202-205 | with the mock league, once one to eleven picks are recorded it is not the user's turn and nobody can draft, so the guard of `draftPlayer` (the only caller of `moveToNextPick`) always returns |
| DraftBoard.ClockAgreesWithBoardOnlyInOddRounds | hsappsoccer/DraftBoardView.swift:245-260 | measured against the snake numbering of `getPickForTeam`, the grid's owner of the next absolute pick is the team on the clock exactly in odd rounds |
| DraftBoard.BoardPicksWithinRound | hsappsoccer/DraftBoardView.swift:214-218 | every pick number the grid reads from the history, and its current pick, is in 1..12 |
| DraftBoard.LaterRoundsLookEmpty | hsappsoccer/DraftBoardView.swift:348-368 | in every well-formed draft, no grid cell of round 2 or later shows a player or the current-pick colour |
| DraftBoard.FirstRoundCell | hsappsoccer/DraftBoardView.swift:348-368 | the round-1 cell of position p shows the p-th entry of the history once it exists, and has the current colour exactly when the within-round pick is p |
| DraftBoard.DraftBoardView.constructor | hsappsoccer/DraftBoardView.swift:6-18 | the view starts with no draft and no selection, empty search, "ALL", clock 60, empty history and pick 1 |
| DraftBoard.DraftBoardView.GetCurrentTeam | hsappsoccer/DraftBoardView.swift:179-183 | nil exactly when there is no draft or the team index is not an index of the league's teams, otherwise the team at that index |
| DraftBoard.DraftBoardView.IsUserTurn | hsappsoccer/DraftBoardView.swift:185-189 | true exactly when there is a current team and it is the user's |
| DraftBoard.DraftBoardView.SetupDraft | hsappsoccer/DraftBoardView.swift:141-151 | with a stored draft it adopts the first one and copies its history and pick; otherwise it creates the mock draft; afterwards the current draft is the first stored one |
| DraftBoard.DraftBoardView.CreateMockDraft | hsappsoccer/DraftBoardView.swift:153-177 | a fresh active draft "draft1" over a fresh league "league1" with 12 fresh teams "Team A".."Team L" with empty rosters, positions 1..12, only team 1 the user's, order 1..12, counters at the start; teams and draft are added to the store |
| DraftBoard.DraftBoardView.MoveToNextPick | hsappsoccer/DraftBoardView.swift:245-260 | the current draft's counters and order take one `Advance` step and nothing else changes |
| DraftBoard.DraftBoardView.DraftPlayer | hsappsoccer/DraftBoardView.swift:202-235 | nothing changes without a selection, a draft or the user's turn; otherwise the player is marked drafted by the team's name at the old round and pick, exactly one fresh entry with the old round, pick and index is appended, the team's roster grows by exactly that player, the turn advances, the clock is 90, the selection is cleared and the schedule invariant is kept |
| DraftBoard.DraftBoardView.AutoDraft | hsappsoccer/DraftBoardView.swift:237-243 | with no filtered player nothing changes; otherwise the top filtered player is selected, and drafted exactly when it is the user's turn |
| DraftBoard.DraftBoardView.Tick | hsappsoccer/DraftBoardView.swift:192-199 | with time left the clock goes down by one and nothing else changes; at 0 it auto-drafts; the clock never becomes negative, and at 0 on another team's turn it stays at 0 with the draft unchanged |

## Left out

- SwiftUI view bodies, layout and colours (`DraftHeaderView`, `AvailablePlayersView`, `AvailablePlayerRow`, `PlayerDetailView`, `positionColor`): presentation only. The grid's cell colours are modelled as the three-valued `BoardGrid.CellStatus`.
- `Timer.scheduledTimer` and `timer?.invalidate()`: operating-system timer plumbing. One tick of the timer closure is `DraftBoard.DraftBoardView.Tick`, and `onAppear` is modelled by `SetupDraft` alone.
- Persistence:
  - `modelContext.insert` is modelled as appending to the view's `teams` and `drafts` fields.
  - `modelContext.save()` and `try?` have no effect in the model, since a failed save changes nothing the engine reads.
  - The Refresh button and `refreshTrigger` only force a save and a redraw.
- `@Query` refresh timing: the store's fetched collections are fields updated at once, not asynchronously.
- `print` debug output: it has no effect on behaviour.
- `showingPlayerDetail` and the detail sheet: presentation only.
- `localizedCaseInsensitiveContains`: locale-dependent Foundation code. It is modelled as substring search with ASCII case folding.
- `PlayerPool.SortByPoints`: does not promise any order between players with equal points, because Swift's `sorted` is not documented to be stable.
- `Date()` timestamps of `DraftPick`: they come from the clock and are never read by the engine.
- `ScoringSettings`: all its fields are floating point and the draft logic never reads them.
- `Draft.availablePlayers`: it is never filled by the engine and is kept only as an always-empty field.
- `Int` overflow: integers are unbounded. Nothing stops a draft after the 15 rounds of `DraftSettings`, since `moveToNextPick` never reads `rounds`. The counters grow by one per pick, so they cannot overflow for any realistic number of picks.
- hsappsoccer/PlayerDataService.swift, hsappsoccer/ContentView.swift and hsappsoccer/hsappsoccerApp.swift are not part of this model. They hold the sample-data seeder, static tab screens and app container setup.
