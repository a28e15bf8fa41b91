# Yahtzee rules engine in Dafny

This project models the rules engine of a single-player Yahtzee app for Android
written in Kotlin. The player plays a match against the computer. There are
26 turns, alternating between the two sides. On a turn a side rolls five dice
up to three times and then fills one of the thirteen hand-scored rows of its
score sheet. At the end the upper bonus and the totals are written, the outcome
is decided and one record is saved. A statistics screen folds the saved records
into a summary.

The model has four modules:

- `GameRecords` (`GameRecords.dfy`): the values shared by the engine and the
  statistics: `Option`, the stored `GameResult` record, and the `SaveRequest`
  the engine emits when a match ends.
- `Scoring` (`Scoring.dfy`): `calculateYahtzeeScores`, the sheet's row labels
  and the two texts chosen from points and from the roll counter. The scoring
  rules are first stated declaratively over face counts (`CategoryScore`,
  `Scores`): "some face shows at least three times", "four consecutive faces
  are present", and so on. The imperative `CalculateYahtzeeScores` follows
  the source step by step. It fills a count array, builds the `"0"/"1"`
  presence string and tests the substrings `"1111"`, `"01111"`, `"11110"`
  and `"11111"`. It is proved equal to `Scores`. Lemmas then state each row's
  meaning, its possible values, and invariance under reordering the dice.
- `PlayGame` (`PlayGame.dfy`): the match state machine as a class `Match`.
  Its array fields are the dice, the selection, both score sheets and both
  filled-row flag lists. Its scalar fields are the turn counters. Each method
  is one event handler or effect of the screen. Random faces and random
  reselections are parameters. The computer's heuristic (`SelectBestCategory`
  with the per-row minimums, and the last-roll `FallbackCategory`) is given
  as functions over `maxByOrNull`. The predicate `TurnsBalanced` counts
  filled rows against the turn counter. The lemmas prove that committing a row
  keeps that count, that the side to move always has an open row while turns
  remain, and that both sheets are full when the counter reaches 0.
- `GameStats` (`GameStats.dfy`): the statistics as pure folds (`count`,
  `maxOfOrNull`, `minOfOrNull`, `filter`) with their bounds. It also shows
  that, over records written by the engine, the outcome counts partition the
  history, and the biggest win and biggest loss are positive exactly when
  such a match exists.

Five sixes score 30 in Sixes (`SampleSixes`). Committing a row does not
check whether the row is already filled; only the sheet's buttons keep a
filled row from being offered (a precondition of `ChooseCategory`).

The row buttons (player's turn, after the first roll, an open row 0..12) are
guarded by the user interface, and that guard is written as a precondition
of `ChooseCategory`. A tap on a die needs only a die index 0..4; outside
the one-or-two-rolls-left window the tap does nothing (`ToggleDie`). The
roll is different. The roll button checks the
player's turn, a selected die and a roll left when it is pressed
(`PlayGameScreen.kt:285`, `:483`); the roll itself happens on the next shake
of the phone, which acts on the state at that moment. So
`PlayGame.Match.PlayerRoll` requires only that a roll is left, which no step
between press and shake can undo. In particular, a shake after the selected
dice were tapped off rolls nothing. A shake after a row was committed rolls
the computer's dice with their current selection and leaves two rolls on the
computer's turn, because committing a row does not unregister the shake
listener.

## Model

| member | source | states |
|---|---|---|
| Scoring.Count | app/src/main/java/com/example/yahtzeegame/components/Functions.kt:393-394 | the number of dice showing a face never exceeds the number of dice |
| Scoring.CategoryLabels | app/src/main/java/com/example/yahtzeegame/components/Functions.kt:413-418 | the fifteen row labels are the category names in row order, with Bonus and Total in rows 13 and 14 |
| Scoring.ScoresFollowCategoryOrder | app/src/main/java/com/example/yahtzeegame/components/Functions.kt:392-411 | the thirteen scores are indexed like the first thirteen sheet rows |
| Scoring.CountFaces | app/src/main/java/com/example/yahtzeegame/components/Functions.kt:393-394 | the count array holds, for each face 1..6, how many dice show it |
| Scoring.Bitmap | app/src/main/java/com/example/yahtzeegame/components/Functions.kt:403 | the presence string has one character per face: '1' exactly when that face shows, and '0' exactly when it does not |
| Scoring.ContainsIffOccurs | app/src/main/java/com/example/yahtzeegame/components/Functions.kt:404 | the substring test holds exactly when the pattern occurs at some position of the text |
| Scoring.SmallStraightInBitmap | app/src/main/java/com/example/yahtzeegame/components/Functions.kt:403-404 | the three small-straight substring tests together hold exactly when four consecutive faces are present |
| Scoring.LargeStraightInBitmap | app/src/main/java/com/example/yahtzeegame/components/Functions.kt:406 | the test for "11111" holds exactly when five consecutive faces are present |
| Scoring.CountTests | app/src/main/java/com/example/yahtzeegame/components/Functions.kt:400-402 | the tests on the count array ("some count >= 3", ">= 4", "== 5", "3 and 2 both occur") match the rules stated over the dice |
| Scoring.UpperRows | app/src/main/java/com/example/yahtzeegame/components/Functions.kt:397-399 | the six upper entries built from the counts are the six upper-row scores |
| Scoring.LowerRows | app/src/main/java/com/example/yahtzeegame/components/Functions.kt:400-409 | the seven lower entries built from the counts and the presence string are the seven lower-row scores |
| Scoring.CalculateYahtzeeScores | app/src/main/java/com/example/yahtzeegame/components/Functions.kt:392-411 | for every valid hand the imperative computation returns exactly the thirteen rule-defined scores |
| Scoring.UpperRowScore | app/src/main/java/com/example/yahtzeegame/components/Functions.kt:397-399 | upper row i scores (i+1) times the number of dice showing i+1, between 0 and 5(i+1) |
| Scoring.ChanceIsUpperTotal | app/src/main/java/com/example/yahtzeegame/components/Functions.kt:395 | Chance is the sum of the dice, between 5 and 30, and equals the sum of the six upper rows |
| Scoring.OfAKindRows | app/src/main/java/com/example/yahtzeegame/components/Functions.kt:400-401 | each of-a-kind row is 0 or the dice sum, and is the sum exactly when some face shows 3 (resp. 4) times; a scoring four of a kind also scores three of a kind |
| Scoring.FullHouseRow | app/src/main/java/com/example/yahtzeegame/components/Functions.kt:402 | Full House is 25 or 0, and 25 exactly when one face shows three times and a different face twice |
| Scoring.StraightRows | app/src/main/java/com/example/yahtzeegame/components/Functions.kt:403-407 | Small Straight is 30 exactly with four consecutive faces and 0 otherwise; Large Straight is 40 exactly with five and 0 otherwise; a large straight also scores the small one |
| Scoring.YahtzeeRow | app/src/main/java/com/example/yahtzeegame/components/Functions.kt:409 | Yahtzee is 50 or 0, and 50 exactly when all dice are equal; such a hand scores its sum in both of-a-kind rows and 0 as Full House |
| Scoring.PermutationInvariant | app/src/main/java/com/example/yahtzeegame/components/Functions.kt:392-411 | reordering the dice keeps the hand valid and leaves all thirteen scores unchanged |
| Scoring.SampleFullHouses | app/src/main/java/com/example/yahtzeegame/components/Functions.kt:402 | 2,2,2,3,3 scores 25 as Full House; five fives score 0 there and 50 as Yahtzee |
| Scoring.SampleSixes | app/src/main/java/com/example/yahtzeegame/components/Functions.kt:397-409 | five sixes score 30 in Sixes, 30 in both of-a-kind rows and 50 as Yahtzee |
| Scoring.SampleSmallStraight | app/src/main/java/com/example/yahtzeegame/components/Functions.kt:403-407 | 1,1,2,3,4 scores 30 as Small Straight and 0 as Large Straight |
| Scoring.SampleLargeStraight | app/src/main/java/com/example/yahtzeegame/components/Functions.kt:403-407 | 1,2,3,4,5 scores both straights |
| Scoring.ResultText | app/src/main/java/com/example/yahtzeegame/components/Functions.kt:334 | the headline is "You won!", "It's a draw!" or "You lost!" exactly when the player's points are above, equal to or below the computer's |
| Scoring.SelectDiceText | app/src/main/java/com/example/yahtzeegame/components/Functions.kt:313-317 | no hint with three rolls left; "Choose category" exactly with none left; the reroll offer exactly with one or two left, which is when dice may be toggled |
| PlayGame.MaxByOrNull | app/src/main/java/com/example/yahtzeegame/components/PlayGameScreen.kt:152 | None exactly when nothing is eligible; otherwise an eligible index whose value is the largest, and the first such index |
| PlayGame.SelectBestCategory | app/src/main/java/com/example/yahtzeegame/components/PlayGameScreen.kt:149-153 | None exactly when no open row reaches its minimum score; otherwise such a row with the highest score, the lowest row on a tie |
| PlayGame.FallbackCategory | app/src/main/java/com/example/yahtzeegame/components/PlayGameScreen.kt:178-180 | None exactly when every row is filled; otherwise an open row with the highest score, the lowest row on a tie |
| PlayGame.Reroll | app/src/main/java/com/example/yahtzeegame/components/PlayGameScreen.kt:132-136 | rolling the selected dice again keeps a valid hand valid |
| PlayGame.OpponentHands | app/src/main/java/com/example/yahtzeegame/components/PlayGameScreen.kt:158-176 | the computer's first hand is its first roll, and each later hand is the previous one with the reselected dice rolled again; all are valid |
| PlayGame.FilledCountBounds | app/src/main/java/com/example/yahtzeegame/components/PlayGameScreen.kt:104-109 | the filled-row count equals the number of rows exactly when all are filled, and is 0 exactly when none is |
| PlayGame.FilledCountMark | app/src/main/java/com/example/yahtzeegame/components/PlayGameScreen.kt:295 | marking an open row filled adds one to the count |
| PlayGame.CommitKeepsBalance | app/src/main/java/com/example/yahtzeegame/components/PlayGameScreen.kt:138-144 | filling an open row of the side to move and passing the turn keeps the balance of filled rows against turns left |
| PlayGame.MoverHasOpenRow | app/src/main/java/com/example/yahtzeegame/components/PlayGameScreen.kt:126 | while turns are left, the side to move has an open row |
| PlayGame.SheetsCompleteAtEnd | app/src/main/java/com/example/yahtzeegame/components/PlayGameScreen.kt:191 | when no turn is left, both sides have filled all thirteen rows, so each side played exactly thirteen turns |
| PlayGame.FinalSheetRows | app/src/main/java/com/example/yahtzeegame/components/PlayGameScreen.kt:192-202 | the final sheet keeps the thirteen scored rows; Bonus is 35 exactly when the upper rows reach 63 and 0 otherwise; Total is the bonus plus the thirteen rows |
| PlayGame.CloseSheet | app/src/main/java/com/example/yahtzeegame/components/PlayGameScreen.kt:192-207 | a sheet becomes its final sheet, with Bonus and Total marked filled |
| PlayGame.Outcome | app/src/main/java/com/example/yahtzeegame/components/PlayGameScreen.kt:209-213 | the saved tag is "WIN", "LOSE" or "DRAW" exactly when the player's total is above, below or equal to the computer's |
| PlayGame.ResultTextMatchesOutcome | app/src/main/java/com/example/yahtzeegame/components/PlayGameScreen.kt:209-213 | the headline shown agrees with the saved outcome tag |
| PlayGame.Match.constructor | app/src/main/java/com/example/yahtzeegame/components/PlayGameScreen.kt:92-127 | a new match: the given first hand, every die selected, empty sheets, the given starting side, three rolls and 26 turns; the sheets start balanced |
| PlayGame.Match.FillSelection | app/src/main/java/com/example/yahtzeegame/components/PlayGameScreen.kt:143 | every die is selected, or none |
| PlayGame.Match.RollSelectedDices | app/src/main/java/com/example/yahtzeegame/components/PlayGameScreen.kt:132-136 | exactly the selected dice take the new faces, and the hand stays valid |
| PlayGame.Match.EndTurn | app/src/main/java/com/example/yahtzeegame/components/PlayGameScreen.kt:138-144 | three rolls again, one turn fewer, the other side to move, every die selected |
| PlayGame.Match.ReselectOnTurnChange | app/src/main/java/com/example/yahtzeegame/components/PlayGameScreen.kt:240-247 | on the branch that does not start the computer's turn, all dice are selected when three rolls are left; otherwise nothing changes |
| PlayGame.Match.PlayerRoll | app/src/main/java/com/example/yahtzeegame/components/PlayGameScreen.kt:270-272 | on any turn and with any selection, the selected dice are rolled, one roll is used and the selection is cleared |
| PlayGame.Match.ToggleDie | app/src/main/java/com/example/yahtzeegame/components/PlayGameScreen.kt:317 | a tap flips exactly that die's selection when one or two rolls are left, and changes nothing otherwise |
| PlayGame.Match.ChooseCategory | app/src/main/java/com/example/yahtzeegame/components/PlayGameScreen.kt:292-297 | the chosen row gets the current hand's score for it and is marked filled, nothing else on either sheet changes, the turn passes, and the turn balance is kept |
| PlayGame.Match.BestForHand | app/src/main/java/com/example/yahtzeegame/components/PlayGameScreen.kt:162-163 | the computer's pick is the heuristic applied to the current hand's scores |
| PlayGame.Match.SetSelection | app/src/main/java/com/example/yahtzeegame/components/PlayGameScreen.kt:171 | the selection becomes exactly the given random flags |
| PlayGame.Match.OpponentCommit | app/src/main/java/com/example/yahtzeegame/components/PlayGameScreen.kt:165-168 | the computer's chosen open row gets the score, is marked filled, the turn passes, and the turn balance is kept |
| PlayGame.Match.OpponentRolls | app/src/main/java/com/example/yahtzeegame/components/PlayGameScreen.kt:156-180 | one to three rolls; the computer stops at its first hand that has an acceptable row, and takes that pick; the hands before it had none; after the third roll it uses the fallback pick |
| PlayGame.Match.OpponentTurn | app/src/main/java/com/example/yahtzeegame/components/PlayGameScreen.kt:146-188 | the hands and picks as above; exactly the picked row (previously open) is written with its score; no row is written only when all were filled; the player's sheet is untouched; the turn passes; the turn balance is kept |
| PlayGame.Match.FinishGame | app/src/main/java/com/example/yahtzeegame/components/PlayGameScreen.kt:190-237 | both sheets become final sheets with Bonus and Total marked; the match is finished; the one save request carries the totals, their outcome, whether the bonus was earned and whether Yahtzee scored 50, and goes to the cloud store exactly when a user is signed in; after a balanced match all fifteen rows of both sheets are filled |
| PlayGame.Match.FinishGameIfOver | app/src/main/java/com/example/yahtzeegame/components/PlayGameScreen.kt:190-191 | a save request is produced exactly when no turn is left and the match is not yet finished, and it is the match's one save request (store chosen by sign-in, both totals, the outcome, bonus > 0, Yahtzee row == 50) with both sheets closed, Bonus and Total marked filled, all dice selected and the final scores set; otherwise nothing changes |
| GameStats.CountWhere | app/src/main/java/com/example/yahtzeegame/components/GameStatsScreen.kt:68-70 | a count never exceeds the number of records |
| GameStats.CountWhereBounds | app/src/main/java/com/example/yahtzeegame/components/GameStatsScreen.kt:83-84 | a count is 0 exactly when no record qualifies, and equals the number of records exactly when all do |
| GameStats.OutcomeCounts | app/src/main/java/com/example/yahtzeegame/components/GameStatsScreen.kt:68-70 | wins, draws and losses add up to at most the number of records, and to exactly that number when every record has one of the three tags |
| GameStats.MaxOfOrNull | app/src/main/java/com/example/yahtzeegame/components/GameStatsScreen.kt:73 | None exactly on no records; otherwise a value reached by some record and not exceeded by any |
| GameStats.MinOfOrNull | app/src/main/java/com/example/yahtzeegame/components/GameStatsScreen.kt:74 | None exactly on no records; otherwise a value reached by some record and not undercut by any |
| GameStats.Filter | app/src/main/java/com/example/yahtzeegame/components/GameStatsScreen.kt:77 | a record is kept exactly when it is in the input and satisfies the test, and the result has as many records as the input has records satisfying the test |
| GameStats.BiggestWin | app/src/main/java/com/example/yahtzeegame/components/GameStatsScreen.kt:76-78 | -1 when no match was won; otherwise the largest winning margin over the won matches, reached by one of them |
| GameStats.BiggestLoss | app/src/main/java/com/example/yahtzeegame/components/GameStatsScreen.kt:79-81 | -1 when no match was lost; otherwise the largest losing margin over the lost matches, reached by one of them |
| GameStats.Statistics | app/src/main/java/com/example/yahtzeegame/components/GameStatsScreen.kt:46-84 | no statistics exactly when there are no records; otherwise the game count; the WIN, DRAW and LOSE counts, the bonus count and the Yahtzee count, each the number of records with that property, summing to at most the game count; the biggest win and biggest loss as `BiggestWin` and `BiggestLoss` characterise them; and a maximum and minimum score reached by some record and bounding all of them |
| GameStats.EngineOutcomeCounts | app/src/main/java/com/example/yahtzeegame/components/GameStatsScreen.kt:67-70 | over records written by the engine, wins, draws and losses add up to the number of records |
| GameStats.EngineRecordMargins | app/src/main/java/com/example/yahtzeegame/components/GameStatsScreen.kt:76-81 | an engine record is won exactly when its winning margin is positive, and lost exactly when its losing margin is |
| GameStats.EngineBiggestWin | app/src/main/java/com/example/yahtzeegame/components/GameStatsScreen.kt:76-78 | over engine records the biggest win is positive exactly when some match was won |
| GameStats.EngineBiggestLoss | app/src/main/java/com/example/yahtzeegame/components/GameStatsScreen.kt:79-81 | over engine records the biggest loss is positive exactly when some match was lost |
| GameStats.EngineRecordStatistics | app/src/main/java/com/example/yahtzeegame/components/GameStatsScreen.kt:67-84 | the statistics of a non-empty engine history have outcome counts summing to the game count, and a positive biggest win and loss exactly when such matches exist |

## Left out

- Compose layout, dialogs, navigation, orientation and theming: presentation only.
- Shake detection: the accelerometer threshold, the one-second debounce and
  listener registration are not part of this model. The roll a shake
  triggers is `PlayGame.Match.PlayerRoll`. The roll button's guard is checked
  on the press, not on the shake, so it is not a precondition of that roll.
  The `showShakeText` flag is presentation only.
- GameStats.WinMargin and GameStats.LossMargin: points are 32-bit `Int` in
  the source, so a margin wraps around, and a cloud record's points pass
  through a truncating `toInt()`. The model's points and margins are
  unbounded. The two differ only for records whose points lie far outside
  what a match can produce (engine totals stay below 400).
- Randomness: the faces that come up, the computer's random reselections and
  the random starting side are parameters.
- Timing and concurrency: the delays in the computer's turn and the
  coroutines that run effects are not modelled. Each effect is a method run
  to completion, so interleavings of the turn-counter effect and the
  turn-change effect are not captured.
- PlayGame.Match.OpponentTurn: the rolling part and the commit are two calls
  (`OpponentRolls`, then `OpponentCommit` or `EndTurn`). The source commits
  inside its loop just before returning, so the outcome is the same.
- PlayGame.Match.FinishGame: the source interleaves the player's and the
  computer's Bonus/Total writes. The model closes one sheet and then the
  other. The two sheets are separate lists, so the final state is the same.
- Persistence: the cloud store, the local database and their queries are not
  modelled. The engine's side is the `SaveRequest` it emits, and the sink
  adds the timestamp.
- The average score on the statistics screen, the number formatting and
  the SMS export. The average is a floating-point division; the others are
  text output.
- State savers for screen rotation: they copy lists and change no values.
- Dice images: a display mapping from faces to drawables.
- Scoring.CalculateYahtzeeScores: requires a valid hand. In the source a
  face outside 1..6 would index outside the count array and fail; the game
  never produces such a face.
