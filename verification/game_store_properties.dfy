/** Properties that relate several store operations: turn cycles, the
    pirate counter over a run of rolls, the single-level undo, the one-shot
    Alchemist, the game archive and the histogram of the session history. */
module GameStoreProperties {
  import opened Wrappers
  import opened GameTypes
  import opened GameStore
  import DiceRules
  import Histogram

  // ---------------------------------------------------------------------
  // Turns

  /** `k` consecutive calls of `nextTurn`. */
  function Turns(s: GameState, k: nat): (t: GameState)
    requires |s.players| > 0
    ensures t.(currentPlayerIndex := s.currentPlayerIndex, round := s.round) == s
    decreases k
  {
    if k == 0 then s else NextTurn(Turns(s, k - 1))
  }

  lemma ModOfSmaller(k: nat, n: nat)
    requires k < n
    ensures k % n == k
  {
  }

  /** Within the first round the `k`-th turn reaches player `k`. */
  lemma {:induction false} TurnsWithinRound(s: GameState, k: nat)
    requires |s.players| > 0 && s.currentPlayerIndex == 0 && k < |s.players|
    ensures Turns(s, k).currentPlayerIndex == k
    ensures Turns(s, k).round == s.round
    decreases k
  {
    if k > 0 {
      var previous := Turns(s, k - 1);
      TurnsWithinRound(s, k - 1);
      assert previous.players == s.players;
      ModOfSmaller(k, |s.players|);
      assert Turns(s, k) == NextTurn(previous);
    }
  }

  /** A full cycle of `n` turns visits every player once in the same round
      and returns to the first player, one round on. */
  lemma FullCycle(s: GameState)
    requires |s.players| > 0 && s.currentPlayerIndex == 0
    ensures Turns(s, |s.players|) == s.(round := s.round + 1)
    ensures forall k :: 0 <= k < |s.players| ==> Turns(s, k).currentPlayerIndex == k && Turns(s, k).round == s.round
  {
    var n := |s.players|;
    TurnsWithinRound(s, n - 1);
    assert n % n == 0;
    forall k | 0 <= k < n
      ensures Turns(s, k).currentPlayerIndex == k && Turns(s, k).round == s.round
    {
      TurnsWithinRound(s, k);
    }
  }

  /** Turns compose: `a` turns then `b` more are `a + b` turns. */
  lemma {:induction false} TurnsCompose(s: GameState, a: nat, b: nat)
    requires |s.players| > 0
    ensures Turns(s, a + b) == Turns(Turns(s, a), b)
    decreases b
  {
    if b > 0 {
      TurnsCompose(s, a, b - 1);
    }
  }

  /** Turn-taking does not look at the round: starting a round later ends a
      round later. */
  lemma {:induction false} TurnsShiftRound(s: GameState, k: nat)
    requires |s.players| > 0
    ensures Turns(s.(round := s.round + 1), k) == Turns(s, k).(round := Turns(s, k).round + 1)
    decreases k
  {
    if k > 0 {
      TurnsShiftRound(s, k - 1);
    }
  }

  /** From the first player, turn-taking is periodic: `n` more turns land on
      the same player, one round later. */
  lemma TurnsPeriodic(s: GameState, k: nat)
    requires |s.players| > 0 && s.currentPlayerIndex == 0
    ensures Turns(s, k + |s.players|).currentPlayerIndex == Turns(s, k).currentPlayerIndex
    ensures Turns(s, k + |s.players|).round == Turns(s, k).round + 1
  {
    TurnsCompose(s, |s.players|, k);
    FullCycle(s);
    TurnsShiftRound(s, k);
  }

  // ---------------------------------------------------------------------
  // The pirate counter over a run of rolls

  /** The rolls `values`, made one after the other at the same clock
      reading. */
  function RollAll(s: GameState, values: seq<seq<int>>, now: nat): (t: GameState)
    ensures t.thirdDiceEnabled == s.thirdDiceEnabled
    ensures |t.rollHistory| == |s.rollHistory| + |values|
    decreases |values|
  {
    if |values| == 0 then s
    else AddRoll(RollAll(s, values[..|values| - 1], now), values[|values| - 1], now)
  }

  /** How many of the rolls show a pirate on the event die. */
  function PirateFaces(values: seq<seq<int>>): nat
    decreases |values|
  {
    if |values| == 0 then 0
    else PirateFaces(values[..|values| - 1]) + (if DiceRules.PirateFace(values[|values| - 1]) then 1 else 0)
  }

  /** With the third die on, the counter stays in 0..8 and moves by the
      number of pirate faces modulo 8; with it off, the counter never moves. */
  lemma {:induction false} PirateCountOverRolls(s: GameState, values: seq<seq<int>>, now: nat)
    requires 0 <= s.pirateCount <= 8
    ensures 0 <= RollAll(s, values, now).pirateCount <= 8
    ensures s.thirdDiceEnabled ==>
              (RollAll(s, values, now).pirateCount - s.pirateCount - PirateFaces(values)) % 8 == 0
    ensures !s.thirdDiceEnabled ==> RollAll(s, values, now).pirateCount == s.pirateCount
    decreases |values|
  {
    if |values| > 0 {
      var before := RollAll(s, values[..|values| - 1], now);
      PirateCountOverRolls(s, values[..|values| - 1], now);
      var next := NextPirateCount(before.pirateCount, before.thirdDiceEnabled, values[|values| - 1]);
      assert RollAll(s, values, now).pirateCount == next;
    }
  }

  /** While it stays below 8, the counter is its starting value plus the
      pirate faces rolled. */
  lemma {:induction false} PirateCountBelowAttack(s: GameState, values: seq<seq<int>>, now: nat)
    requires s.thirdDiceEnabled && 0 <= s.pirateCount && s.pirateCount + PirateFaces(values) < 8
    ensures RollAll(s, values, now).pirateCount == s.pirateCount + PirateFaces(values)
    decreases |values|
  {
    if |values| > 0 {
      PirateCountBelowAttack(s, values[..|values| - 1], now);
    }
  }

  /** Seven pirates then one more reaches 8; the next pirate roll wraps the
      counter round to 1. */
  lemma PirateWrapExample(s: GameState, now: nat)
    requires s.thirdDiceEnabled && s.pirateCount == 7
    ensures AddRoll(s, [1, 2, 6], now).pirateCount == 8
    ensures DiceRules.IsPirateAttack(AddRoll(s, [1, 2, 6], now).pirateCount)
    ensures AddRoll(AddRoll(s, [1, 2, 6], now), [3, 3, 6], now).pirateCount == 1
  {
  }

  /** Starting inside 0..8 with the third die on, a roll brings the pirates
      exactly when the counter stood at 7 and the event die shows a pirate. */
  lemma PirateAttackOnEighthPirate(s: GameState, values: seq<int>, now: nat)
    requires s.thirdDiceEnabled && 0 <= s.pirateCount <= 8
    ensures DiceRules.IsPirateAttack(AddRoll(s, values, now).pirateCount)
            <==> s.pirateCount == 7 && DiceRules.PirateFace(values)
  {
  }

  /** A third value missing from the roll never counts as a pirate, even
      with the third die on. */
  lemma TwoValuesNeverCount(s: GameState, a: int, b: int, now: nat)
    requires s.thirdDiceEnabled && 0 <= s.pirateCount < 8
    ensures AddRoll(s, [a, b], now).pirateCount == s.pirateCount
  {
  }

  // ---------------------------------------------------------------------
  // Undo

  /** Undo straight after a roll restores the index, the round, the history
      and the pirate counter, and empties the undo slot; the current game's
      rolls and the Alchemist keep what the roll did to them. */
  lemma UndoAfterAddRoll(s: GameState, values: seq<int>, now: nat)
    ensures var u := UndoLastRoll(AddRoll(s, values, now));
      && u.currentPlayerIndex == s.currentPlayerIndex
      && u.round == s.round
      && u.rollHistory == s.rollHistory
      && u.pirateCount == s.pirateCount
      && u.previousState.None?
      && u.currentGame == AddRoll(s, values, now).currentGame
      && u.alchemist == AddRoll(s, values, now).alchemist
  {
  }

  /** Undo is single-level: a second undo changes nothing. */
  lemma SecondUndoIsNoop(s: GameState, values: seq<int>, now: nat)
    ensures UndoLastRoll(UndoLastRoll(AddRoll(s, values, now))) == UndoLastRoll(AddRoll(s, values, now))
  {
  }

  /** The roll screen calls `addRoll` then `nextTurn`; undo still returns to
      the player and round before the roll, because the snapshot was taken
      before the turn moved on. */
  lemma UndoAfterRollAndTurn(s: GameState, values: seq<int>, now: nat)
    requires |s.players| > 0
    ensures var u := UndoLastRoll(NextTurn(AddRoll(s, values, now)));
      && u.currentPlayerIndex == s.currentPlayerIndex
      && u.round == s.round
      && u.rollHistory == s.rollHistory
      && u.pirateCount == s.pirateCount
  {
  }

  /** After undo the two histories disagree: the session history lost the
      roll, the current game's list kept it. */
  lemma UndoLeavesGameRoll(s: GameState, values: seq<int>, now: nat)
    requires s.currentGame.Some?
    ensures var u := UndoLastRoll(AddRoll(s, values, now));
      && u.rollHistory == s.rollHistory
      && |u.currentGame.value.rolls| == |s.currentGame.value.rolls| + 1
      && u.currentGame.value.rolls[0].values == values
  {
  }

  /** `startNewGame` keeps the undo slot, so an undo right after it brings
      back the previous session's index, round and history under the new
      roster: the index can then point past the roster, and the next roll
      is stamped "Unknown". */
  lemma UndoAfterStartNewGame(now: nat)
    ensures var s := GameState(
        players := [Player("1", "Ann"), Player("2", "Bo")],
        currentPlayerIndex := 1, round := 3, thirdDiceEnabled := false,
        rollHistory := [], previousState := None, games := [], currentGame := None,
        pirateCount := 0, alchemist := InactiveAlchemist);
      var u := UndoLastRoll(StartNewGame(AddRoll(s, [2, 5], now), ["Cy"], now));
      && Valid(s) && Valid(u)
      && |u.players| == 1 && u.currentPlayerIndex == 1 && u.round == 3
      && AddRoll(u, [1, 1], now).rollHistory[0].player == UnknownPlayer
  {
  }

  /** Removing a player can leave the index past the end of the roster. */
  lemma RemovePlayerCanLeaveIndexPastRoster()
    ensures var s := Initial.(players := [Player("1", "Ann"), Player("2", "Bo")], currentPlayerIndex := 1);
      var t := RemovePlayer(s, "2");
      && Valid(t) && |t.players| == 1 && t.currentPlayerIndex == 1
  {
  }

  // ---------------------------------------------------------------------
  // Alchemist

  /** The Alchemist acts on one roll only: armed, it is used up by the next
      roll and stays off for the roll after. */
  lemma AlchemistIsOneShot(s: GameState, pair: (int, int), highlight: bool, first: seq<int>, second: seq<int>, now: nat)
    ensures SetAlchemistValues(s, pair, highlight).alchemist.isActive
    ensures AddRoll(SetAlchemistValues(s, pair, highlight), first, now).alchemist == InactiveAlchemist
    ensures AddRoll(AddRoll(SetAlchemistValues(s, pair, highlight), first, now), second, now).alchemist == InactiveAlchemist
  {
  }

  /** Clearing undoes arming. */
  lemma ClearAfterSet(s: GameState, pair: (int, int), highlight: bool)
    ensures ClearAlchemist(SetAlchemistValues(s, pair, highlight)) == ClearAlchemist(s)
  {
  }

  // ---------------------------------------------------------------------
  // Games

  /** Starting and then ending a game archives exactly that game, with the
      rolls made in between, at the head of the completed games. */
  lemma StartRollEnd(s: GameState, names: seq<string>, values: seq<int>, start: nat, roll: nat, end: nat)
    ensures var played := AddRoll(StartNewGame(s, names, start), values, roll);
      var t := EndCurrentGame(played, end);
      && t.games == [played.currentGame.value.(endTime := Some(end))] + s.games
      && |t.games[0].players| == |names|
      && (forall i :: 0 <= i < |names| ==> t.games[0].players[i].name == names[i])
      && |t.games[0].rolls| == 1 && t.games[0].rolls[0].values == values
      && t.games[0].startTime == start
      && t.currentGame.None? && t.players == []
  {
  }

  /** An open game replaced by `startNewGame` is not archived. */
  lemma StartNewGameDropsOpenGame(s: GameState, names: seq<string>, now: nat)
    requires s.currentGame.Some?
    ensures StartNewGame(s, names, now).games == s.games
    ensures StartNewGame(s, names, now).currentGame.value.rolls == []
  {
  }

  /** Ending twice archives once. */
  lemma EndTwiceArchivesOnce(s: GameState, first: nat, second: nat)
    ensures EndCurrentGame(EndCurrentGame(s, first), second) == EndCurrentGame(s, first)
  {
  }

  /** Reset forgets everything: any two states reset to the same state. */
  lemma ResetForgetsEverything(s: GameState, other: GameState)
    ensures ResetGame(s) == ResetGame(other)
    ensures ResetGame(s).games == [] && ResetGame(s).previousState.None?
  {
  }

  // ---------------------------------------------------------------------
  // Histogram of the session history

  /** A roll adds one to the bin of its resource sum and leaves the other
      bins alone. */
  lemma {:induction false} AddRollHistogram(s: GameState, values: seq<int>, now: nat)
    requires Histogram.AllValid(s.rollHistory)
    requires |values| >= 2 && 1 <= values[0] <= 6 && 1 <= values[1] <= 6
    ensures Histogram.AllValid(AddRoll(s, values, now).rollHistory)
    ensures var before := Histogram.CalculateHistogram(s.rollHistory);
      var after := Histogram.CalculateHistogram(AddRoll(s, values, now).rollHistory);
      var bin := values[0] + values[1] - 2;
      && after[bin] == before[bin] + 1
      && forall k :: 0 <= k < Histogram.Bins && k != bin ==> after[k] == before[k]
  {
    var t := AddRoll(s, values, now);
    var roll := t.rollHistory[0];
    assert roll.values == values;
    assert t.rollHistory == [roll] + t.rollHistory[1..];
    assert t.rollHistory == [roll] + s.rollHistory;
    Histogram.HistogramPrepend(roll, s.rollHistory);
  }

  /** A new game starts with an empty histogram. */
  lemma NewGameHistogramEmpty(s: GameState, names: seq<string>, now: nat)
    ensures forall k :: 0 <= k < Histogram.Bins ==>
      Histogram.CalculateHistogram(StartNewGame(s, names, now).rollHistory)[k] == 0
  {
  }
}
