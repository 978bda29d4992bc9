# Catan dice roller: the game store in Dafny

This project models the game store of a Catan companion app (with the Cities
& Knights event die). The store holds the roster, the current player and
round, the session roll history, the pirate counter, a single-level undo
snapshot, the one-shot Alchemist override, the current game and the
completed games. Each store operation is a pure function from one
`GameState` to the next. The model also covers the store's pure helpers
(histogram, robber and pirate tests, city colour) and the die component's
dot layout and colour.

Files:

- `wrappers.dfy`: `Option`, standing in for JavaScript's `null`.
- `ids.dfy`: `Date.now().toString()` as a decimal rendering, with its round trip.
- `game_types.dfy`: the records and the initial state.
- `dice_rules.dfy`: `isPirateAttack`, `isRobberEvent`, `getCityDiceColor`, the event-die test.
- `histogram.dfy`: `calculateHistogram` against a multiset reference.
- `game_store.dfy`: one function per store operation, with its contract and the state invariant `Valid`.
- `game_store_properties.dfy`: lemmas that relate several operations.
- `dice_face.dfy`: `getDotPositions` and the die's own city colour.

Inputs that are not deterministic are parameters. The clock reading `now`
stands for every `Date.now()` inside one operation. The dice values are an
argument of `AddRoll`.

JavaScript behaviour the model reproduces:

- With two values, `values[2] > 3` compares `undefined` and is false, so there is no pirate.
- `currentPlayer?.name || 'Unknown'` gives "Unknown" when the index is outside the roster. It also does so when the name is the empty string.
- `%` in `nextTurn` truncates toward zero (`GameStore.JsRemainder`).
- `startNewGame` gives every player the id `Date.now().toString() + name`, so two players with the same name share an id.

Behaviour of the code worth knowing:

- The code does not keep the current-player index inside the roster. `removePlayer` can leave the index past the end. `startNewGame` keeps the undo snapshot, so an undo right after it restores an index from the old roster. `GameStoreProperties.RemovePlayerCanLeaveIndexPastRoster` and `GameStoreProperties.UndoAfterStartNewGame` exhibit both. The invariant the model proves (`GameStore.Valid`) is therefore: pirate counter in 0..8, index non-negative, round at least 1.
- `getCityDiceColor` returns the hex strings `#eab308` (yellow, face 1), `#22c55e` (green, face 2) and `#3b82f6` (blue, face 3), and `null` for other faces.
- Over a run of rolls the pirate counter is not simply the number of pirate faces modulo 8. With the third die on, a counter at 8 goes back to 0 on the next roll even when that roll shows no pirate. `GameStoreProperties.PirateCountOverRolls` states what does hold: the counter stays in 0..8 and agrees with the pirate faces modulo 8.

## Model

| member | source | states |
|---|---|---|
| Ids.Decimal | store/gameStore.ts:85 | a clock reading's id is a non-empty string of digits without a leading zero |
| Ids.DecimalRoundTrip | store/gameStore.ts:85 | reading the id back as a number gives the clock reading |
| Ids.DecimalInjective | store/gameStore.ts:134 | two roll ids are equal exactly when their clock readings are |
| DiceRules.IsPirateAttack | store/gameStore.ts:280 | an attack is a counter of at least 8; inside 0..8 that means exactly 8 |
| DiceRules.IsRobberEvent | store/gameStore.ts:282 | a robber event needs two values summing to 7; a third value plays no part; with fewer than two values it is false |
| DiceRules.PirateFace | store/gameStore.ts:128 | an event die shows a pirate when a third value exists and exceeds 3; a two-value roll never does |
| DiceRules.CityDiceColor | store/gameStore.ts:284-295 | face 1 is yellow `#eab308`, 2 green `#22c55e`, 3 blue `#3b82f6`; every other value has no colour |
| DiceRules.CityColorsDistinct | store/gameStore.ts:284-295 | the three city faces have three different colours |
| Histogram.ResourceSum | store/gameStore.ts:273 | the resource sum of a well-formed roll is in 2..12 |
| Histogram.CalculateHistogram | store/gameStore.ts:269-278 | 11 bins; bin k is the number of rolls whose first two values sum to k+2 |
| Histogram.HistogramTotal | store/gameStore.ts:269-278 | the bins add up to the number of rolls |
| Histogram.RobberBin | store/gameStore.ts:269-282 | bin 5 counts exactly the robber rolls |
| Histogram.HistogramIgnoresEventDie | store/gameStore.ts:273 | rolls that agree on the first two values have the same histogram, whatever the third |
| Histogram.HistogramPrepend | store/gameStore.ts:272-275 | a roll in front of a list adds one to the bin of its sum and leaves the other ten bins alone |
| Histogram.HistogramExample | store/gameStore.ts:269-278 | rolls 3+4, 1+1, 6+6 give ones in bins 5, 0, 10 and zeros elsewhere |
| GameStore.InitialValid | store/gameStore.ts:68-81 | the starting state keeps the invariant and has no players, games or current game |
| GameStore.JsRemainder | store/gameStore.ts:97 | JavaScript's remainder lies strictly between -n and n, takes the dividend's sign, and equals the mathematical remainder for non-negative dividends |
| GameStore.JsRemainderOdd | store/gameStore.ts:97 | negating the dividend negates the remainder |
| GameStore.AddPlayer | store/gameStore.ts:83-86 | the roster grows by one player at the end, named as given, with the clock id; nothing else changes |
| GameStore.WithoutId | store/gameStore.ts:90 | the kept players are exactly those with another id; an absent id keeps the roster as is; a one-player roster is kept or emptied by its id |
| GameStore.WithoutIdAppend | store/gameStore.ts:90 | filtering a concatenation filters each part and keeps them in order, so the filter preserves roster order and multiplicity |
| GameStore.RemovePlayer | store/gameStore.ts:88-91 | the roster becomes the order-preserving filter of the players with another id; nothing else changes |
| GameStore.ReorderPlayers | store/gameStore.ts:93 | the roster is the given list; nothing else changes |
| GameStore.NextTurn | store/gameStore.ts:95-102 | the index becomes (i+1) mod n, inside the roster; the round rises by one exactly when the index becomes 0, and otherwise stays |
| GameStore.ToggleThirdDice | store/gameStore.ts:104-108 | the third-die flag flips and the pirate counter becomes 0 either way; nothing else changes |
| GameStore.ResetPirateCount | store/gameStore.ts:248 | the counter becomes 0, which is no attack; nothing else changes |
| GameStore.NextPirateCount | store/gameStore.ts:121-131 | the counter stays in 0..8; it is unchanged with the third die off; below 8 it rises by one exactly on a pirate face; at 8 it restarts at 1 on a pirate face and at 0 otherwise |
| GameStore.CurrentPlayerName | store/gameStore.ts:137 | the roll's player is the current player's non-empty name, and otherwise "Unknown" |
| GameStore.TakeSnapshot | store/gameStore.ts:114-119 | the snapshot of a valid state is valid |
| GameStore.AddRoll | store/gameStore.ts:110-165 | the same roll heads the history and, when there is one, the current game's rolls; it carries the values, the pre-roll round, the new counter and the player; the new counter is the one-roll counter step applied to the old counter, the flag and the values; an active Alchemist is used up; the snapshot holds the pre-roll fields; roster, index, round, games and flag are unchanged |
| GameStore.UndoLastRoll | store/gameStore.ts:187-198 | with a snapshot, restores index, round, history and counter and empties the slot; without one it changes nothing; game, roster and Alchemist are left alone |
| GameStore.ClearHistory | store/gameStore.ts:167 | only the session history is emptied |
| GameStore.PlayersFromNames | store/gameStore.ts:207-215 | one player per name, in order, with id clock+name |
| GameStore.StartNewGame | store/gameStore.ts:200-225 | the roster and the new game's players are the players built from the names, in order, with ids clock+name; round 1, index 0, counter 0, empty history and rolls, default Alchemist; completed games, undo slot and flag are unchanged |
| GameStore.EndCurrentGame | store/gameStore.ts:227-241 | without a game nothing changes; otherwise the game, stamped with the end time and otherwise as it was, heads the completed games, the current game and roster are cleared, and round, index and history stay |
| GameStore.ResetGame | store/gameStore.ts:169-185 | reset gives exactly the state the store is created with |
| GameStore.SetAlchemistValues | store/gameStore.ts:250-257 | the Alchemist becomes active with exactly the given pair and flag; nothing else changes |
| GameStore.ClearAlchemist | store/gameStore.ts:259-266 | the Alchemist returns to the starting default; nothing else changes |
| GameStoreProperties.Turns | store/gameStore.ts:95-102 | repeated turns change only the index and the round |
| GameStoreProperties.TurnsWithinRound | store/gameStore.ts:95-102 | from index 0, the k-th turn (k < n) reaches player k in the same round |
| GameStoreProperties.FullCycle | store/gameStore.ts:95-102 | from index 0, n turns return to index 0 with the round one higher |
| GameStoreProperties.TurnsCompose | store/gameStore.ts:95-102 | a turns then b turns are a+b turns |
| GameStoreProperties.TurnsShiftRound | store/gameStore.ts:95-102 | turn-taking does not depend on the round it starts in |
| GameStoreProperties.TurnsPeriodic | store/gameStore.ts:95-102 | from index 0, n more turns reach the same player one round later |
| GameStoreProperties.RollAll | store/gameStore.ts:110-165 | a run of rolls keeps the flag and grows the history by the number of rolls |
| GameStoreProperties.PirateCountOverRolls | store/gameStore.ts:121-131 | over any run of rolls the counter stays in 0..8 and, with the third die on, moves by the number of pirate faces modulo 8; with it off it does not move |
| GameStoreProperties.PirateCountBelowAttack | store/gameStore.ts:121-131 | while below 8, the counter is its start plus the pirate faces rolled |
| GameStoreProperties.PirateWrapExample | store/gameStore.ts:121-131 | from 7, a pirate roll gives 8, an attack; the next pirate roll gives 1 |
| GameStoreProperties.PirateAttackOnEighthPirate | store/gameStore.ts:121-131 | with the third die on, a roll brings a pirate attack exactly when the counter stood at 7 and the event die shows a pirate |
| GameStoreProperties.TwoValuesNeverCount | store/gameStore.ts:128 | a roll with two values leaves the counter below 8 as it was, even with the third die on |
| GameStoreProperties.UndoAfterAddRoll | store/gameStore.ts:187-198 | undo right after a roll restores index, round, history and counter and empties the slot, but keeps the game's rolls and the Alchemist as the roll left them |
| GameStoreProperties.SecondUndoIsNoop | store/gameStore.ts:187-198 | a second undo changes nothing |
| GameStoreProperties.UndoAfterRollAndTurn | store/gameStore.ts:114-119 | after a roll and the following turn, undo restores the pre-roll index, round, history and counter |
| GameStoreProperties.UndoLeavesGameRoll | store/gameStore.ts:142-147 | after roll and undo, the session history is back but the current game still holds the roll |
| GameStoreProperties.UndoAfterStartNewGame | store/gameStore.ts:200-225 | an undo right after starting a game restores the old index and round under the new roster; the index then lies past the roster and the next roll is "Unknown" |
| GameStoreProperties.RemovePlayerCanLeaveIndexPastRoster | store/gameStore.ts:88-91 | removing a player can leave the index past the end of the roster |
| GameStoreProperties.AlchemistIsOneShot | store/gameStore.ts:150-156 | an armed Alchemist is used up by the next roll and stays off after the one after |
| GameStoreProperties.ClearAfterSet | store/gameStore.ts:259-266 | clearing after arming is the same as clearing |
| GameStoreProperties.StartRollEnd | store/gameStore.ts:227-241 | start, roll, end archives that game at the head of the completed games with its players, its roll, its start and the end time |
| GameStoreProperties.StartNewGameDropsOpenGame | store/gameStore.ts:200-225 | starting a game while one is open leaves the completed games unchanged, so the open game is not archived; the new game has no rolls |
| GameStoreProperties.EndTwiceArchivesOnce | store/gameStore.ts:227-241 | ending twice archives once |
| GameStoreProperties.ResetForgetsEverything | store/gameStore.ts:169-185 | any two states reset to the same state, with no games and no undo |
| GameStoreProperties.AddRollHistogram | store/gameStore.ts:269-278 | a roll adds one to the bin of its sum in the history's histogram and leaves the other bins alone |
| GameStoreProperties.NewGameHistogramEmpty | store/gameStore.ts:216 | a new game's history has an all-zero histogram |
| DiceFace.DotPositions | components/Dice.tsx:14-24 | faces 1..6 have that many dots, other values none; every coordinate is 25, 50 or 75; the centre is a dot exactly on odd faces; the dots are distinct and the half-turn maps the face onto itself; which dots each face has is stated by `DiceFace.DotLayout` |
| DiceFace.DotLayout | components/Dice.tsx:16-21 | faces 2 and 3 lie on the top-left to bottom-right diagonal; faces 4 and 5 have their dots in the corners apart from 5's centre; face 6 has its dots on the left and right sides |
| DiceFace.FaceColor | components/Dice.tsx:49-56 | faces 1..3 get a colour other than the dark shade, every other value gets the dark shade |
| DiceFace.FaceColorAgreesWithStore | components/Dice.tsx:49-56 | the component's colour is the store's colour where the store has one, and the dark shade exactly where the store has none |

## Left out

- The `zustand` store plumbing (`create`, `set`, `get`): the state is a value and every operation returns the next one.
- `Date.now()`: a `now` parameter. All reads of the clock within one operation are taken to return the same value, although the source reads it several times.
- `getPirateProgress`: a floating-point percentage. Only the integer counter's 0..8 bound is stated.
- GameStore.NextTurn: requires a non-empty roster. The source divides by zero there and stores NaN, which the model does not represent.
- Histogram.CalculateHistogram: requires the first two values of every roll to be in 1..6. For other values the source writes outside the 11 bins, which grows the JavaScript array or adds NaN.
- Dice generation and the Alchemist's forcing of the next roll's values: these happen in the roll screen, outside the store. `AddRoll` takes the values as given.
- The duplicate `getDotPositions` in `components/MiniDice.tsx`: it is textually the same table, so `DiceFace.DotPositions` covers it.
- The percentage and colour bands in `components/PirateProgress.tsx`, the bar scaling in `components/HistogramChart.tsx`, the theme store, the die animation and gradients, screen layout and framework hooks: rendering and floating point.
