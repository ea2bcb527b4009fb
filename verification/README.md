# Mahjong score sheet — scoring model

A Dafny model of the scoring logic of a four-seat mahjong score sheet, a single-page React app. For each round the user picks a winner, the player who discarded the winning tile (the winner again for a self-draw) and the hand's fan count. The sheet previews the round's payment vector, appends it to the list of saved rounds when the user presses Save, and shows the running total of each column under the table.

The model has three modules:

- `Scoring` (`scoring.dfy`) holds the fan-to-points table and `computeScoreDeltas`. That function is written as the stages the source goes through: initial losses, the discarder's entry doubled, every entry doubled on a self-draw, and then the winner's slot set to minus the others' total. `ExpectedDelta` is a closed form stated independently of those stages, and `ComputeMatchesExpected` proves the two agree.
- `History` (`history.dfy`) holds the sheet's state: seat names plus the append-only list of saved rows. It covers Save, renaming a seat, and the totals row. `CurrentScores` is the render loop that accumulates totals. `ColumnSum`/`Totals` are its reference definition.
- `Players` (`players.dfy`) holds `updatePlayerName` and the round label `getCurrentRoundName`.

Seat and fan indices are integers: the source reads seats from select strings and the fan count from a slider number, and the model requires them to be in range. The code's own comments (src/App.tsx:88-95) mention a penalty rule, tie handling, a minimum payment of 1 and dealer rotation; none of them is implemented, and the model leaves them out. For 4 seats, 3 fan and seat 0 winning off seat 2's discard the code gives [16, -4, -8, -4] (`Scoring.ExampleDiscardWin`).

## Model

| member | source | states |
|---|---|---|
| `Scoring.ComputeScoreDeltas` | src/App.tsx:73-98 | The payment vector has one entry per player and sums to zero: the winner receives exactly what the others pay. |
| `Scoring.UnsettledShape` | src/App.tsx:76-86 | Before the winner's slot is filled in, the vector has one entry per player and the winner's entry is 0. Every other entry already has its final closed-form value. |
| `Scoring.UnsettledTotal` | src/App.tsx:92 | The total the others pay is n·base on a discard win and 2(n−1)·base on a self-draw. |
| `Scoring.ComputeMatchesExpected` | src/App.tsx:73-98 | Every entry of the computed vector equals the independent closed form `ExpectedDelta`. |
| `Scoring.DiscardWinPayments` | src/App.tsx:76-93 | When the winner is not the discarder: each bystander pays the base value, the discarder pays double, and the winner collects n times the base value. |
| `Scoring.SelfDrawPayments` | src/App.tsx:81-93 | On a self-draw, every other player pays double the base value and the winner collects 2(n−1) times it. |
| `Scoring.ScoreTableNonDecreasing` | src/App.tsx:16 | The fan table is non-negative and never decreases as the fan count grows. |
| `Scoring.PaymentsMonotoneInFan` | src/App.tsx:76-93 | Raising the fan count never makes a loser pay less or the winner collect less. Losers never gain and the winner never loses. |
| `Scoring.ZeroFanTransfersNothing` | src/App.tsx:76-93 | With 0 fan every delta is 0. No one-point minimum is applied; it exists only as a comment. |
| `Scoring.ExampleDiscardWin` | src/App.tsx:73-98 | 4 players, 3 fan, seat 0 wins off seat 2's discard: [16, -4, -8, -4]. |
| `Scoring.ExampleSelfDraw` | src/App.tsx:73-98 | 4 players, 3 fan, seat 0 self-draws: [24, -8, -8, -8]. |
| `History.Preview` | src/App.tsx:193-197 | The previewed row has one entry per seat and is zero-sum. |
| `History.Save` | src/App.tsx:199-204 | Save appends one row, the previewed vector. The names and every earlier row are unchanged. |
| `History.Rename` | src/App.tsx:114-116 | Editing a seat's name leaves the saved rounds untouched and the seat count unchanged. |
| `History.CurrentScores` | src/App.tsx:130-135 | The totals row is built from four zeros (line 100) by adding each entry of each row into its column. Each total is the column sum over all saved rows. When every row is zero-sum, the totals sum to zero. |
| `History.TotalsAppend` | src/App.tsx:130-135 | Appending a row adds that row's entry to each player's total. |
| `History.TotalsZeroSum` | src/App.tsx:130-135 | If every saved row is zero-sum, the totals row is zero-sum. |
| `History.InitialGameConsistent` | src/App.tsx:35-41 | The fresh sheet (four wind-named seats, no rounds) satisfies the state invariant, and its totals are all zero. |
| `History.SavePreservesConsistent` | src/App.tsx:199-204 | Saving any outcome the form allows keeps the invariant: four seats, and every row is a zero-sum vector of four entries. |
| `History.SaveUpdatesTotals` | src/App.tsx:199-204 | After a save, each total moves by exactly the new row's entry and the totals still sum to zero. |
| `History.RenamePreservesConsistent` | src/App.tsx:53-57 | Renaming a seat keeps the state invariant and every total. |
| `Players.UpdatePlayerName` | src/App.tsx:53-57 | The renamed list has the same length and the new name at seat i. Every other seat keeps its name. |
| `Players.UpdateUndo` | src/App.tsx:53-57 | Writing the old name back restores the original list. |
| `Players.EditsAtDifferentSeatsCommute` | src/App.tsx:53-57 | Edits at two different seats commute, and both survive. |
| `Players.UpdatePlayerNameAsWritten` | src/App.tsx:53-57 | The memoised handler's result is the first render's names with seat i replaced, whatever the current names are. |
| `Players.StaleUpdateRevertsEarlierEdit` | src/App.tsx:53-57 | With the handler as written, renaming seat 0 and then seat 1 puts seat 0 back to "East". With the corrected update, the first edit survives. |
| `Players.CurrentRoundName` | src/App.tsx:46-51 | The label always reads "East 1 (<seat 0's name> deals)": wind and dealer index are fixed at 0. |
| `Players.RoundNameIdentifiesDealer` | src/App.tsx:46-51 | Two name lists give the same label exactly when their first names agree. |

## Left out

- Rendering, Mantine components and `useState` wiring are left out. The state is an explicit `Game` value passed in and returned.
- The `penalty` and `fakeWin` checkboxes and the `repeatGames` flag are left out. They are stored but never read by the scoring.
- Tie (no winner) is left out. A cleared select is excluded by precondition: a blank winner would index the vector with `NaN`, and the select offers only seats.
- Dealer/wind rotation, repeat games, delete-last-round, Reset, Export and persistence are left out. They exist only as comments or as buttons without handlers.
- Fan counts outside the table are excluded by precondition. The slider only produces 0..13, and JavaScript would yield `NaN` outside the table.
- The winner's slot is found with `Number(mods.winner)` (lines 78, 93) and the discarder's with `Number(mods.discarder)` (line 81), while self-draw is decided by string `===` (line 84). The select values are `String(i)`, so numeric and string identity agree, and the model uses integer equality throughout.
- JavaScript numbers are doubles, not unbounded integers. All values here stay far below 2^53, so the model uses unbounded integers. At 0 fan every entry is `-0` in JavaScript; the model treats it as 0.
- History.Rename: models the rename handler over the current names (the corrected update); the handler as registered, which copies the first render's names, is modelled separately as `Players.UpdatePlayerNameAsWritten` (see Findings).
- `History.CurrentScores` requires every row to have four entries. A longer row would extend the fixed four-zero totals with `NaN`. Every saved row has one entry per seat, and there are always four seats.

## Findings

| source | as written | input that shows it | evidently intended | confidence | as-written member | corrected member |
|---|---|---|---|---|---|---|
| src/App.tsx:53-57 | `updatePlayerName` is memoised with an empty dependency list, so it always copies the names of the first render | rename seat 0 to "Ann", then seat 1 to "Bo": seat 0 reads "East" again | copy the current names, so earlier edits survive | high; not executed | `Players.StaleUpdateRevertsEarlierEdit` | `Players.EditsAtDifferentSeatsCommute` |
