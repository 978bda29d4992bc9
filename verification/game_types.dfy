/** The records the game store keeps: players, rolls, games, the Alchemist
    override, the single undo snapshot and the whole store state. */
module GameTypes {
  import opened Wrappers

  /** A roster entry. */
  datatype Player = Player(id: string, name: string)

  /** One roll event. `values[0]` and `values[1]` are the resource dice, an
      optional `values[2]` is the event die. `player`, `round` and
      `pirateCount` are snapshots taken when the roll was made. */
  datatype DiceRoll = DiceRoll(
    id: string,
    timestamp: int,
    values: seq<int>,
    player: string,
    round: int,
    pirateCount: int)

  /** A game; `endTime` is None while it is the current game. `rolls` is
      most-recent-first. */
  datatype Game = Game(
    id: string,
    startTime: int,
    endTime: Option<int>,
    rolls: seq<DiceRoll>,
    players: seq<Player>)

  /** The Alchemist card: when active, the next roll's resource dice are
      `presetValues`. */
  datatype Alchemist = Alchemist(
    isActive: bool,
    presetValues: (int, int),
    highlightSecondDice: bool)

  /** The four fields a roll can be undone to. */
  datatype Snapshot = Snapshot(
    currentPlayerIndex: int,
    round: int,
    rollHistory: seq<DiceRoll>,
    pirateCount: int)

  /** The data part of the store. */
  datatype GameState = GameState(
    players: seq<Player>,
    currentPlayerIndex: int,
    round: int,
    thirdDiceEnabled: bool,
    rollHistory: seq<DiceRoll>,
    previousState: Option<Snapshot>,
    games: seq<Game>,
    currentGame: Option<Game>,
    pirateCount: int,
    alchemist: Alchemist)

  /** The Alchemist value the store starts with and returns to after use. */
  const InactiveAlchemist := Alchemist(false, (1, 1), false)

  /** The state the store is created with. */
  const Initial := GameState(
    players := [],
    currentPlayerIndex := 0,
    round := 1,
    thirdDiceEnabled := false,
    rollHistory := [],
    previousState := None,
    games := [],
    currentGame := None,
    pirateCount := 0,
    alchemist := InactiveAlchemist)
}
