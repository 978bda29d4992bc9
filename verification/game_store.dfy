/** The game store: every operation is a total transition from one state to
    the next. `Date.now()` is the parameter `now`; every read of the clock
    inside one operation is taken to see the same millisecond. */
module GameStore {
  import opened Wrappers
  import opened GameTypes
  import Ids
  import DiceRules

  /** The name a roll is stamped with when no player can be named. */
  const UnknownPlayer := "Unknown"

  /** Bounds every reachable state keeps: the pirate counter in 0..8, a
      non-negative player index, a positive round, and the same for the
      undo snapshot. */
  predicate SnapshotValid(snap: Snapshot) {
    && 0 <= snap.pirateCount <= DiceRules.PirateAttackAt
    && 0 <= snap.currentPlayerIndex
    && 1 <= snap.round
  }

  predicate Valid(s: GameState) {
    && 0 <= s.pirateCount <= DiceRules.PirateAttackAt
    && 0 <= s.currentPlayerIndex
    && 1 <= s.round
    && (s.previousState.Some? ==> SnapshotValid(s.previousState.value))
  }

  lemma InitialValid()
    ensures Valid(Initial)
    ensures Initial.players == [] && Initial.games == [] && Initial.currentGame == None
  {
  }

  /** JavaScript's `%`: the remainder truncated toward zero, so it takes the
      sign of the dividend; Dafny's `%` agrees with it on non-negative
      dividends. */
  function JsRemainder(a: int, n: int): (r: int)
    requires n > 0
    ensures -n < r < n
    ensures a >= 0 ==> 0 <= r
    ensures a <= 0 ==> r <= 0
    ensures a >= 0 ==> r == a % n
    ensures a <= 0 ==> r == -((-a) % n)
  {
    if a >= 0 then a % n else -((-a) % n)
  }

  /** The truncated remainder is odd in its dividend, which with the
      non-negative case determines it everywhere. */
  lemma JsRemainderOdd(a: int, n: int)
    requires n > 0
    ensures JsRemainder(-a, n) == -JsRemainder(a, n)
  {
  }

  // ---------------------------------------------------------------------
  // Roster

  /** `addPlayer`: appends a player whose id is the clock reading. */
  function AddPlayer(s: GameState, name: string, now: nat): (t: GameState)
    ensures |t.players| == |s.players| + 1
    ensures t.players[..|s.players|] == s.players
    ensures t.players[|s.players|].name == name
    ensures t.players[|s.players|].id == Ids.Decimal(now)
    ensures t.(players := s.players) == s
    ensures Valid(s) ==> Valid(t)
  {
    s.(players := s.players + [Player(Ids.Decimal(now), name)])
  }

  /** The players whose id is not `id`, in their original order. */
  function WithoutId(players: seq<Player>, id: string): (kept: seq<Player>)
    ensures |kept| <= |players|
    ensures forall p :: p in kept <==> p in players && p.id != id
    ensures (forall i :: 0 <= i < |players| ==> players[i].id != id) ==> kept == players
    ensures |players| == 1 ==> kept == (if players[0].id == id then [] else players)
    decreases |players|
  {
    if |players| == 0 then []
    else if players[0].id == id then WithoutId(players[1..], id)
    else [players[0]] + WithoutId(players[1..], id)
  }

  /** Filtering a concatenation filters each part and keeps them in order;
      with the one-player case this pins `WithoutId` down as the
      order-preserving filter. */
  lemma {:induction false} WithoutIdAppend(front: seq<Player>, back: seq<Player>, id: string)
    ensures WithoutId(front + back, id) == WithoutId(front, id) + WithoutId(back, id)
    decreases |front|
  {
    if |front| == 0 {
      assert front + back == back;
    } else {
      assert (front + back)[1..] == front[1..] + back;
      WithoutIdAppend(front[1..], back, id);
    }
  }

  /** `removePlayer`: drops every player with the given id. */
  function RemovePlayer(s: GameState, id: string): (t: GameState)
    ensures t.players == WithoutId(s.players, id)
    ensures forall p :: p in t.players <==> p in s.players && p.id != id
    ensures |t.players| <= |s.players|
    ensures t.(players := s.players) == s
    ensures Valid(s) ==> Valid(t)
  {
    s.(players := WithoutId(s.players, id))
  }

  /** `reorderPlayers`: installs the given roster as it is. */
  function ReorderPlayers(s: GameState, players: seq<Player>): (t: GameState)
    ensures t.players == players
    ensures t.(players := s.players) == s
    ensures Valid(s) ==> Valid(t)
  {
    s.(players := players)
  }

  // ---------------------------------------------------------------------
  // Turns

  /** `nextTurn`: the next player in roster order; the round goes up exactly
      when the index wraps to 0. An empty roster divides by zero in the
      source, so callers must not do it. */
  function NextTurn(s: GameState): (t: GameState)
    requires |s.players| > 0
    ensures s.currentPlayerIndex >= 0 ==> t.currentPlayerIndex == (s.currentPlayerIndex + 1) % |s.players|
    ensures s.currentPlayerIndex >= 0 ==> 0 <= t.currentPlayerIndex < |s.players|
    ensures t.round == s.round + 1 <==> t.currentPlayerIndex == 0
    ensures t.round == s.round || t.round == s.round + 1
    ensures t.(currentPlayerIndex := s.currentPlayerIndex, round := s.round) == s
    ensures Valid(s) ==> Valid(t)
  {
    var next := JsRemainder(s.currentPlayerIndex + 1, |s.players|);
    s.(currentPlayerIndex := next, round := if next == 0 then s.round + 1 else s.round)
  }

  // ---------------------------------------------------------------------
  // Pirates and the third die

  /** `toggleThirdDice`: flips the third die and zeroes the pirate counter,
      whichever way it flips. */
  function ToggleThirdDice(s: GameState): (t: GameState)
    ensures t.thirdDiceEnabled != s.thirdDiceEnabled
    ensures t.pirateCount == 0
    ensures t.(thirdDiceEnabled := s.thirdDiceEnabled, pirateCount := s.pirateCount) == s
    ensures Valid(s) ==> Valid(t)
  {
    s.(thirdDiceEnabled := !s.thirdDiceEnabled, pirateCount := 0)
  }

  /** `resetPirateCount`. */
  function ResetPirateCount(s: GameState): (t: GameState)
    ensures t.pirateCount == 0 && !DiceRules.IsPirateAttack(t.pirateCount)
    ensures t.(pirateCount := s.pirateCount) == s
    ensures Valid(s) ==> Valid(t)
  {
    s.(pirateCount := 0)
  }

  /** The counter after one roll: with the third die on, a counter that
      already reached 8 starts over at 0 before the roll, and a pirate face
      adds one; with the third die off it is left alone. */
  function NextPirateCount(count: int, thirdDiceEnabled: bool, values: seq<int>): (next: int)
    ensures 0 <= count <= DiceRules.PirateAttackAt ==> 0 <= next <= DiceRules.PirateAttackAt
    ensures !thirdDiceEnabled ==> next == count
    ensures thirdDiceEnabled && count < 8 ==> next - count == (if DiceRules.PirateFace(values) then 1 else 0)
    ensures thirdDiceEnabled && count >= 8 ==> (next == 1 <==> DiceRules.PirateFace(values)) && 0 <= next <= 1
    ensures thirdDiceEnabled && 0 <= count <= 8 ==> (next - count - (if DiceRules.PirateFace(values) then 1 else 0)) % 8 == 0
  {
    if !thirdDiceEnabled then count
    else
      var base := if count >= 8 then 0 else count;
      if DiceRules.PirateFace(values) then base + 1 else base
  }

  // ---------------------------------------------------------------------
  // Rolls and undo

  /** `currentPlayer?.name || 'Unknown'`: the current player's name, or
      "Unknown" when the index is outside the roster or the name is the
      empty string (which JavaScript treats as false). */
  function CurrentPlayerName(s: GameState): (name: string)
    ensures name != ""
    ensures 0 <= s.currentPlayerIndex < |s.players| && s.players[s.currentPlayerIndex].name != ""
            ==> name == s.players[s.currentPlayerIndex].name
    ensures !(0 <= s.currentPlayerIndex < |s.players|) ==> name == UnknownPlayer
    ensures name == UnknownPlayer || (0 <= s.currentPlayerIndex < |s.players| && name == s.players[s.currentPlayerIndex].name)
  {
    if 0 <= s.currentPlayerIndex < |s.players| && s.players[s.currentPlayerIndex].name != ""
    then s.players[s.currentPlayerIndex].name
    else UnknownPlayer
  }

  /** The four fields `undoLastRoll` can restore, as they stand now. */
  function TakeSnapshot(s: GameState): (snap: Snapshot)
    ensures Valid(s) ==> SnapshotValid(snap)
  {
    Snapshot(s.currentPlayerIndex, s.round, s.rollHistory, s.pirateCount)
  }

  /** `addRoll`: records one roll. It saves the undo snapshot, advances the
      pirate counter, stamps the roll with the current player, the round
      and the new counter, prepends it to the session history and to the
      current game's rolls, and uses up an active Alchemist. */
  function AddRoll(s: GameState, values: seq<int>, now: nat): (t: GameState)
    // the roll, at the head of the history
    ensures |t.rollHistory| == |s.rollHistory| + 1 && t.rollHistory[1..] == s.rollHistory
    ensures t.rollHistory[0].values == values
    ensures t.rollHistory[0].round == s.round
    ensures t.rollHistory[0].pirateCount == t.pirateCount
    ensures t.rollHistory[0].player == CurrentPlayerName(s)
    ensures t.rollHistory[0].id == Ids.Decimal(now) && t.rollHistory[0].timestamp == now
    // the same roll on the current game, if there is one
    ensures t.currentGame.Some? <==> s.currentGame.Some?
    ensures s.currentGame.Some? ==>
              && t.currentGame.value.rolls == [t.rollHistory[0]] + s.currentGame.value.rolls
              && t.currentGame.value.(rolls := s.currentGame.value.rolls) == s.currentGame.value
    // the pirate counter
    ensures !s.thirdDiceEnabled ==> t.pirateCount == s.pirateCount
    ensures t.pirateCount == NextPirateCount(s.pirateCount, s.thirdDiceEnabled, values)
    ensures 0 <= s.pirateCount <= 8 ==> 0 <= t.pirateCount <= 8
    // the one-shot Alchemist
    ensures !t.alchemist.isActive
    ensures s.alchemist.isActive ==> t.alchemist == InactiveAlchemist
    ensures !s.alchemist.isActive ==> t.alchemist == s.alchemist
    // the undo snapshot holds the pre-roll values
    ensures t.previousState.Some?
    ensures t.previousState.value.currentPlayerIndex == s.currentPlayerIndex
    ensures t.previousState.value.round == s.round
    ensures t.previousState.value.rollHistory == s.rollHistory
    ensures t.previousState.value.pirateCount == s.pirateCount
    // nothing else changes
    ensures t.players == s.players && t.currentPlayerIndex == s.currentPlayerIndex && t.round == s.round
    ensures t.games == s.games && t.thirdDiceEnabled == s.thirdDiceEnabled
    ensures Valid(s) ==> Valid(t)
  {
    var pirateCount := NextPirateCount(s.pirateCount, s.thirdDiceEnabled, values);
    var roll := DiceRoll(
      id := Ids.Decimal(now),
      timestamp := now,
      values := values,
      player := CurrentPlayerName(s),
      round := s.round,
      pirateCount := pirateCount);
    var currentGame :=
      if s.currentGame.Some?
      then Some(s.currentGame.value.(rolls := [roll] + s.currentGame.value.rolls))
      else None;
    var alchemist := if s.alchemist.isActive then InactiveAlchemist else s.alchemist;
    s.(rollHistory := [roll] + s.rollHistory,
       previousState := Some(TakeSnapshot(s)),
       pirateCount := pirateCount,
       currentGame := currentGame,
       alchemist := alchemist)
  }

  /** `undoLastRoll`: restores the four snapshot fields and forgets the
      snapshot; without a snapshot it changes nothing. The current game's
      rolls, the Alchemist and everything else are left as they are. */
  function UndoLastRoll(s: GameState): (t: GameState)
    ensures s.previousState.None? ==> t == s
    ensures t.previousState.None?
    ensures s.previousState.Some? ==>
              && t.currentPlayerIndex == s.previousState.value.currentPlayerIndex
              && t.round == s.previousState.value.round
              && t.rollHistory == s.previousState.value.rollHistory
              && t.pirateCount == s.previousState.value.pirateCount
    ensures t.players == s.players && t.games == s.games && t.currentGame == s.currentGame
    ensures t.alchemist == s.alchemist && t.thirdDiceEnabled == s.thirdDiceEnabled
    ensures Valid(s) ==> Valid(t)
  {
    match s.previousState
    case None => s
    case Some(snap) =>
      s.(currentPlayerIndex := snap.currentPlayerIndex,
         round := snap.round,
         rollHistory := snap.rollHistory,
         pirateCount := snap.pirateCount,
         previousState := None)
  }

  /** `clearHistory`: empties the session history only. */
  function ClearHistory(s: GameState): (t: GameState)
    ensures t.rollHistory == []
    ensures t.(rollHistory := s.rollHistory) == s
    ensures Valid(s) ==> Valid(t)
  {
    s.(rollHistory := [])
  }

  // ---------------------------------------------------------------------
  // Games

  /** The roster `startNewGame` builds: one player per name, in order, with
      id `Date.now().toString() + name`. */
  function PlayersFromNames(names: seq<string>, now: nat): (players: seq<Player>)
    ensures |players| == |names|
    ensures forall i :: 0 <= i < |names| ==> players[i].name == names[i]
    ensures forall i :: 0 <= i < |names| ==> players[i].id == Ids.Decimal(now) + names[i]
  {
    seq(|names|, i requires 0 <= i < |names| => Player(Ids.Decimal(now) + names[i], names[i]))
  }

  /** `startNewGame`: opens a fresh game for the named players and restarts
      the session. It does not archive a game that is still open (that game
      is dropped), and it keeps the undo snapshot and the third-die flag. */
  function StartNewGame(s: GameState, names: seq<string>, now: nat): (t: GameState)
    ensures |t.players| == |names| && forall i :: 0 <= i < |names| ==> t.players[i].name == names[i]
    ensures t.players == PlayersFromNames(names, now)
    ensures t.currentGame.Some?
    ensures t.currentGame.value.players == t.players
    ensures t.currentGame.value.rolls == [] && t.currentGame.value.endTime.None?
    ensures t.currentGame.value.startTime == now && t.currentGame.value.id == Ids.Decimal(now)
    ensures t.round == 1 && t.currentPlayerIndex == 0 && t.pirateCount == 0
    ensures t.rollHistory == [] && t.alchemist == InactiveAlchemist
    ensures t.games == s.games
    ensures t.previousState == s.previousState && t.thirdDiceEnabled == s.thirdDiceEnabled
    ensures Valid(s) ==> Valid(t)
  {
    var roster := PlayersFromNames(names, now);
    s.(currentGame := Some(Game(
         id := Ids.Decimal(now),
         startTime := now,
         endTime := None,
         rolls := [],
         players := roster)),
       players := roster,
       rollHistory := [],
       round := 1,
       currentPlayerIndex := 0,
       pirateCount := 0,
       alchemist := InactiveAlchemist)
  }

  /** `endCurrentGame`: stamps the open game's end time, puts it at the head
      of the completed games and clears the current game and the roster.
      Without an open game it changes nothing. */
  function EndCurrentGame(s: GameState, now: nat): (t: GameState)
    ensures s.currentGame.None? ==> t == s
    ensures s.currentGame.Some? ==>
              && |t.games| == |s.games| + 1
              && t.games[1..] == s.games
              && t.games[0].endTime == Some(now)
              && t.games[0].(endTime := s.currentGame.value.endTime) == s.currentGame.value
              && t.currentGame.None?
              && t.players == []
    ensures t.round == s.round && t.currentPlayerIndex == s.currentPlayerIndex
    ensures t.rollHistory == s.rollHistory && t.previousState == s.previousState
    ensures t.pirateCount == s.pirateCount && t.alchemist == s.alchemist
    ensures t.thirdDiceEnabled == s.thirdDiceEnabled
    ensures Valid(s) ==> Valid(t)
  {
    match s.currentGame
    case None => s
    case Some(game) =>
      s.(games := [game.(endTime := Some(now))] + s.games,
         currentGame := None,
         players := [])
  }

  /** `resetGame`: every field back to its starting value, completed games
      included. */
  function ResetGame(s: GameState): (t: GameState)
    ensures t == Initial
    ensures Valid(t)
  {
    s.(currentPlayerIndex := 0,
       round := 1,
       rollHistory := [],
       previousState := None,
       currentGame := None,
       games := [],
       players := [],
       pirateCount := 0,
       thirdDiceEnabled := false,
       alchemist := Alchemist(false, (1, 1), false))
  }

  // ---------------------------------------------------------------------
  // Alchemist

  /** `setAlchemistValues`: arms the Alchemist with the given pair for the
      next roll. */
  function SetAlchemistValues(s: GameState, values: (int, int), highlightSecond: bool): (t: GameState)
    ensures t.alchemist.isActive
    ensures t.alchemist.presetValues == values && t.alchemist.highlightSecondDice == highlightSecond
    ensures t.(alchemist := s.alchemist) == s
    ensures Valid(s) ==> Valid(t)
  {
    s.(alchemist := Alchemist(true, values, highlightSecond))
  }

  /** `clearAlchemist`: cancels the Alchemist. */
  function ClearAlchemist(s: GameState): (t: GameState)
    ensures !t.alchemist.isActive && t.alchemist == Initial.alchemist
    ensures t.(alchemist := s.alchemist) == s
    ensures Valid(s) ==> Valid(t)
  {
    s.(alchemist := Alchemist(false, (1, 1), false))
  }
}
