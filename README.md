# Card scoreboard for "400" and "Trix": a verified model of its scoring core

The scoreboard is a single browser script (`index.js`) that keeps the running
totals of four seats over the rounds of two card games. This project models the
part of it that is more than presentation wiring:

- **Round rules** (module `Rules`, `rules.dfy`). These are the TRIX rule table, `clampInt`, `sum`,
  `validateTrixInput` and the point formulas. Five Trix sub-games are modelled:
  - King, Queens, Diamonds and Luto count cards or tricks per seat, clamped to the table's range. They are
    accepted when the counts add up to 1, 4, 13 and 13, and a seat scores its count times −75, −25, −10 or −15.
  - Trix takes a place per seat, clamped to 1..4. It is accepted when the sorted places read 1,2,3,4, and the
    places score 200/150/100/50.
  - Any other type string passes the validator.
- **The score state** (module `ScoreState`, `state.dfy`). A `State` value is
  exactly what `snapshot()` copies: game, target text, names, totals, rounds and the
  undo history, whose entries are themselves `State`s. Every handler is a function
  on such values: `pushUndo`, `addRound400`, `addRoundTrix`, `deleteLastRound`,
  `newGame`, the game switch, the name edit and `undo`. The invariant `Consistent`
  says that each seat's total is the sum of its points over the rounds, that the
  rounds are numbered 1..n, and that the history holds at most 50 snapshots, each
  consistent itself.
- **The live state** (module `Board`, `board.dfy`): class `ScoreBoard` with the
  fields of `state`, `totals` as a four-element array updated in place by the
  same loops as the script. Each handler method is proved to keep `Valid()` and to
  leave `Snapshot()` equal to the `ScoreState` function applied to the state
  before it.
- **The leader badge** (module `Leader`, `leader.dfy`). This is the pure part of `renderLeader`: the
  largest and smallest totals, `indexOf`, and the target check.

What the proofs expose about the script as written:

- `undo` after any handler that pushed a snapshot restores the previous state
  exactly, history included. This holds even when the push evicted the oldest
  snapshot at capacity, because the snapshot was taken before the push.
- A rejected Trix round does not roll back exactly. It has already overwritten
  the target, and its push-then-pop loses the oldest snapshot when the history
  was full (50 entries). A reader would expect an exact rollback; the script
  does not give one, and the model follows the script.
- The badge shows a tie only when all four totals are equal. With totals
  10, 20, 10, 20 two seats share the lead, which one might expect to read as a
  tie; the script reports seat 2 (index 1) as leader, and so does the model.
- `deleteLastRound` with no rounds silently does nothing and pushes nothing. No
  error is reported to the user, and the model reports none either.
- An empty place field reads as 0 and is clamped to place 1, so places 0,2,3,4
  are accepted as 1,2,3,4.

## Model

| member | source | states |
|---|---|---|
| Rules.Clamp | index.js:61-65 | the result lies in [min, max] whenever min ≤ max; an in-range value is returned unchanged; values below clamp to min and above to max |
| Rules.Lo | index.js:31-36 | the lowest accepted input of a sub-game: 0 for the count games, place 1 for Trix |
| Rules.Hi | index.js:31-36 | the highest accepted input: 1 (King), 4 (Queens), 13 (Diamonds, Luto), place 4 (Trix) |
| Rules.PlacePoints | index.js:36 | the Trix place table: 200, 150, 100, 50 for places 1 to 4, and 0 for any other place |
| Rules.SeatPoints | index.js:32-36 | one seat's points: its count times −75, −25, −10 or −15, or its place's points in Trix |
| Rules.ClampAll | index.js:248 | every seat's input clamped to the range with `clampInt` |
| Rules.Sum | index.js:66 | the total of the inputs, adding from the front |
| Rules.Validate | index.js:77-95 | the rule check: no error, or the failed rule, for a count game whose sum is not 1, 4, 13 or 13, or Trix places that do not sort to 1,2,3,4; every other type passes |
| Rules.RoundInput | index.js:236-248 | the input a Trix round validates: each raw value clamped to the sub-game's range |
| Rules.DealtCount | index.js:78-89 | how many cards or tricks a count sub-game deals: 1, 4, 13, 13 |
| Rules.Insert | index.js:91 | inserting into an ascending sequence keeps it ascending and adds exactly one element (multiset and sum) |
| Rules.SortAsc | index.js:91 | the sorted places are ascending and a permutation of the input, with the same sum |
| Rules.AscendingUnique | index.js:91-92 | two ascending sequences with the same elements are equal, so the sorted places are determined by their multiset |
| Rules.SortedPlaces | index.js:90-93 | the sorted places read 1,2,3,4 iff the places are a permutation of 1..4 |
| Rules.KingAccepted | index.js:78-80 | after clamping to [0,1] a King round is accepted iff exactly one seat holds 1 (the rest 0), iff exactly one raw input is ≥ 1 |
| Rules.CountAccepted | index.js:78-89 | a King, Queens, Diamonds or Luto round whose raw counts all lie within the table's range is accepted iff the counts add up to 1, 4, 13 or 13 |
| Rules.OverCountExample | index.js:246-250 | Queens 5, 0, 0, 0 does not add up to 4, yet it is clamped to 4, 0, 0, 0 and accepted |
| Rules.TrixAccepted | index.js:235-237 | a Trix round is accepted iff its places, clamped to [1,4], are a permutation of 1..4 |
| Rules.OtherTypeAccepted | index.js:94 | a type string outside the five sub-games is always accepted |
| Rules.Points | index.js:244-257 | one point entry per seat |
| Rules.PointsAt | index.js:244-257 | each seat's points are its count times the sub-game's points per card, or the points of its place |
| Rules.SumPointsCount | index.js:257 | a count sub-game hands out the sum of the counts times the points per card |
| Rules.SumPointsTrix | index.js:244 | for places in 1..4 the Trix points total 250 per seat minus 50 per place |
| Rules.PointsPermute | index.js:244-257 | points are computed seat by seat, so permuting the inputs permutes the points |
| Rules.PlacesPoints | index.js:244 | a permutation of the places 1..4 scores a permutation of 200, 150, 100, 50 |
| Rules.PlacesTotal | index.js:244 | a permutation of the places 1..4 scores 500 in total |
| Rules.AcceptedRoundTotal | index.js:235-257 | an accepted round hands out −75 (King), −100 (Queens), −130 (Diamonds), −195 (Luto) or 500 (Trix) in total |
| Rules.AcceptedTrixPoints | index.js:235-244 | in an accepted Trix round the seats receive 200, 150, 100 and 50, one each |
| Rules.QueensExample | index.js:246-257 | Queens split 1,1,2,0 is accepted and scores −25, −25, −50, 0 |
| Rules.KingExample | index.js:78-80 | a King round where two seats claim the king is rejected with the King rule |
| Rules.TrixExample | index.js:244 | places 1,2,3,4 score 200, 150, 100, 50 |
| Rules.EmptyPlaceExample | index.js:236-237 | an empty place (read as 0, clamped to 1) with 2,3,4 is accepted |
| ScoreState.Initial | index.js:40-47 | the state the page starts in: 400, no target, default names, zero totals, no rounds, no history |
| ScoreState.DefaultName | index.js:146 | the fallback name of seat i: "Player i+1" |
| ScoreState.TotalsOf | index.js:260-262 | the totals the rounds imply: each seat's points summed over the rounds |
| ScoreState.AddVec | index.js:260 | each seat's total plus its points |
| ScoreState.SubVec | index.js:314 | each seat's total minus its points |
| ScoreState.Consistent | index.js:40-58 | the invariant: four names, totals equal to the rounds' column sums, rounds numbered 1..n with four entries each, at most 50 snapshots, each consistent |
| ScoreState.Push | index.js:56-57 | append the snapshot and drop the oldest entry once there are more than 50 |
| ScoreState.Pop | index.js:253 | drop the latest snapshot, if any |
| ScoreState.PushUndo | index.js:55-58 | push a snapshot of the whole current state onto its own history |
| ScoreState.Undo | index.js:331-334 | the latest snapshot becomes the whole state; with none the state is kept |
| ScoreState.AppendRound | index.js:260-270 | add a round's points to the totals and append the round |
| ScoreState.AddRound400 | index.js:198-213 | push, set the target, add the manual points as the next round |
| ScoreState.AddRoundTrix | index.js:225-270 | push, set the target, clamp and validate; a rejected round pops the history and returns the rule, an accepted one is appended with its points |
| ScoreState.DeleteLastRound | index.js:309-314 | nothing without rounds; otherwise push, drop the last round and subtract its points |
| ScoreState.NewGame | index.js:319-323 | push, then no rounds, zero totals and no target |
| ScoreState.SwitchGame | index.js:155-157 | push, then change the game |
| ScoreState.Rename | index.js:145-146 | set seat i's name, falling back to the default name for an empty text, without a snapshot |
| ScoreState.PushBounded | index.js:56-58 | a push never leaves more than 50 snapshots, the new one is last, nothing is lost below capacity, and at capacity exactly the oldest is dropped |
| ScoreState.PushConsistent | index.js:55-58 | pushing a snapshot of a consistent state keeps it consistent |
| ScoreState.UndoAfterPush | index.js:331-334 | undo right after a push returns exactly the pushed state, its history included |
| ScoreState.UndoRoundTrip | index.js:331-334 | undo after the game switch, a 400 round, an accepted Trix round, a delete of an existing round or a new game gives back the state before it, even at capacity |
| ScoreState.UndoEmpty | index.js:332-333 | undo with an empty history changes nothing |
| ScoreState.RejectedTrixRound | index.js:226-255 | a rejected Trix round keeps totals, rounds, names and game but has overwritten the target; the history is unchanged below capacity and loses its oldest snapshot at capacity |
| ScoreState.RejectedAtCapacityLosesOldest | index.js:250-255 | at capacity a rejected Trix round leaves 49 snapshots |
| ScoreState.ColumnSumAppend | index.js:260-262 | appending a round adds its points to each seat's column sum |
| ScoreState.TotalsAppend | index.js:260-262 | the totals implied by the rounds after an append are the old totals plus the round's points |
| ScoreState.TotalsDropLast | index.js:313-314 | the totals implied by the rounds without the last one are the old totals minus its points |
| ScoreState.AddSubVec | index.js:313-314 | subtracting the points that were added restores the totals |
| ScoreState.PopConsistent | index.js:251-253 | popping the latest snapshot off a consistent state leaves it consistent |
| ScoreState.AppendConsistent | index.js:260-270 | adding a round's points to the totals and appending it with the next index keeps the state consistent |
| ScoreState.AddRound400Consistent | index.js:198-213 | a 400 round keeps totals equal to the column sums and rounds numbered 1..n |
| ScoreState.AddRoundTrixConsistent | index.js:225-270 | a Trix round, accepted or rejected, keeps the state consistent |
| ScoreState.DeleteLastRoundConsistent | index.js:309-314 | deleting the last round keeps the state consistent |
| ScoreState.NewGameConsistent | index.js:319-323 | a new game keeps the state consistent |
| ScoreState.SwitchGameConsistent | index.js:155-157 | switching the game keeps the state consistent |
| ScoreState.UndoConsistent | index.js:331-334 | the state restored by undo is consistent |
| ScoreState.InitialConsistent | index.js:40-47 | the initial state is consistent |
| ScoreState.AddThenDelete | index.js:309-314 | a 400 round or an accepted Trix round followed by deleting the last round restores totals and rounds exactly |
| ScoreState.DeleteAfterAppend | index.js:309-314 | deleting the round just appended takes its points back off the totals and restores the rounds |
| ScoreState.DeleteWithoutRounds | index.js:310 | deleting with no rounds changes nothing and pushes no snapshot |
| ScoreState.RenameKeepsHistory | index.js:145-146 | a name edit pushes no snapshot, leaves totals and rounds alone and never leaves an empty name |
| ScoreState.RenameConsistent | index.js:145-146 | a name edit keeps the state consistent |
| Leader.Largest | index.js:400 | `Math.max` returns an element that no total exceeds |
| Leader.Smallest | index.js:401 | `Math.min` returns an element that no total is below |
| Leader.IndexOf | index.js:408 | `indexOf` returns the first position holding the value, or −1 when there is none |
| Leader.NumberValue | index.js:415 | `Number(state.target)` on integer text: "" is 0, an optional sign followed by decimal digits is that integer, anything else is not a number |
| Leader.DigitsValue | index.js:415 | the value of a string of decimal digits, never negative |
| Leader.IntText | index.js:415 | the decimal text of an integer, with a minus sign when negative |
| Leader.LeaderOf | index.js:397-418 | the badge: a tie when the largest and smallest totals agree, else the first seat with the largest total, with the target reached when the text is non-empty, numeric and at most that total |
| Leader.NumberValueExamples | index.js:415 | five sample target texts: "" reads as 0, "42" as 42, "-5" as −5, while "4a" and "-" are not numbers |
| Leader.NatText | index.js:415 | the decimal text of a natural number is non-empty and made of digits |
| Leader.NatTextValue | index.js:415 | the digits of a natural number's decimal text add up to the number again |
| Leader.IntTextRoundTrip | index.js:415 | every integer written in decimal, and every non-negative one with a leading plus, reads back as itself |
| Leader.NotNumberIff | index.js:415 | a target text is not a number iff it is a bare sign or holds a character other than a leading sign that is not a decimal digit |
| Leader.TieIffAllEqual | index.js:400-406 | the badge shows a tie iff all four totals are equal |
| Leader.LeaderIsFirstMaximum | index.js:408-410 | otherwise the leader is the lowest seat with the largest total |
| Leader.TargetReachedIff | index.js:415-418 | outside a tie the target is reached iff its text is non-empty, numeric and at most the leader's total |
| Leader.SharedLeadExample | index.js:400-410 | totals 10, 20, 10, 20 are not a tie; seat index 1 leads |
| Board.ScoreBoard.constructor | index.js:40-47 | the live state starts as the initial state and is valid |
| Board.ScoreBoard.PushUndo | index.js:55-58 | pushes a snapshot of the whole state and drops the oldest beyond 50, keeping the state valid |
| Board.ScoreBoard.AddPoints | index.js:260 | the loop adds each seat's points to its total in place |
| Board.ScoreBoard.SubtractPoints | index.js:314 | the loop subtracts each seat's points from its total in place |
| Board.ScoreBoard.AppendRound | index.js:260-270 | adds the round's points to the totals array in place and appends the round, changing nothing else |
| Board.ScoreBoard.AddRound400 | index.js:198-213 | leaves exactly the state `ScoreState.AddRound400` computes, and a valid one |
| Board.ScoreBoard.AddRoundTrix | index.js:225-270 | leaves exactly the state and the error that `ScoreState.AddRoundTrix` computes, and a valid state |
| Board.ScoreBoard.DeleteLastRound | index.js:309-314 | leaves exactly the state `ScoreState.DeleteLastRound` computes, and a valid one |
| Board.ScoreBoard.NewGame | index.js:319-323 | leaves exactly the state `ScoreState.NewGame` computes, with a fresh totals array |
| Board.ScoreBoard.SwitchGame | index.js:155-157 | leaves exactly the state `ScoreState.SwitchGame` computes |
| Board.ScoreBoard.Rename | index.js:145-146 | leaves exactly the state `ScoreState.Rename` computes, with no snapshot pushed |
| Board.ScoreBoard.Undo | index.js:331-334 | replaces the whole state by the latest snapshot, with a fresh totals array that shares nothing with it; with no snapshot it changes nothing |

## Left out

- The DOM is not modelled: building, rendering and the button states (`buildScoreUI`, `buildInputs`,
  `buildHistoryHeader`, `renderTotals`, `renderHistory`, `updatePanels`, `updateHint`, `onTrixTypeChange`,
  `clearManual`, `clearTrix`, `autoRankHint`, `fillZeros`, `undoBtn.disabled`, `delLastBtn.disabled`). These are
  presentation only.
- `readInputs` reads DOM fields. The four seat inputs are a parameter of the handlers instead, and so is
  the trimmed target text.
- JavaScript number handling is not modelled: `Number()`, `Math.trunc`, non-finite values and non-integer
  manual points. This is floating point; all inputs are integers here.
- Leader.NumberValue reads only an optional sign followed by decimal digits as a number. Decimal fractions,
  exponents, hexadecimal and "Infinity" are treated as not numeric, because they are floating-point text.
- The timestamp and the note of a round are not kept. They are display only.
- The rule messages are not kept as text. They are the `RuleError` tag naming the failed rule.
- The `JSON.parse(JSON.stringify(...))` deep copy is not modelled. Snapshots are immutable values, so a
  restored state shares nothing with any other snapshot by construction.
- `escapeHtml` and `typeLabelForRow` only format HTML output.
- The name-edit wiring is not modelled; only its effect on the state is, as `Rename`.
- `addRoundTrix` with a type outside the five sub-games is not modelled. The selector offers only the five,
  and the script would fail on the missing table entry.
