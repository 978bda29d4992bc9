/** The pure dice rules the store exports: pirate attack, robber event and
    the event die's city colour, plus the event-die test `addRoll` makes. */
module DiceRules {
  import opened Wrappers

  /** The count at which the pirates attack. */
  const PirateAttackAt := 8

  /** `isPirateAttack`: the counter has reached the attack threshold. */
  function IsPirateAttack(pirateCount: int): (attack: bool)
    ensures attack <==> pirateCount >= PirateAttackAt
    ensures 0 <= pirateCount <= PirateAttackAt ==> (attack <==> pirateCount == PirateAttackAt)
  {
    pirateCount >= 8
  }

  /** `isRobberEvent`: the two resource dice sum to 7. With fewer than two
      values JavaScript adds `undefined`, gets NaN, and the test fails. */
  function IsRobberEvent(values: seq<int>): (robber: bool)
    ensures robber ==> |values| >= 2
    ensures robber <==> |values| >= 2 && values[1] == 7 - values[0]
    ensures robber && 1 <= values[0] <= 6 ==> 1 <= values[1] <= 6
  {
    |values| >= 2 && values[0] + values[1] == 7
  }

  /** `values[2] > 3` as JavaScript evaluates it: without a third value the
      comparison is `undefined > 3`, which is false. */
  function PirateFace(values: seq<int>): (pirate: bool)
    ensures pirate ==> |values| >= 3
    ensures |values| <= 2 ==> !pirate
    ensures |values| > 2 && 4 <= values[2] ==> pirate
    ensures |values| > 2 && values[2] <= 3 ==> !pirate
  {
    |values| > 2 && values[2] > 3
  }

  const Yellow := "#eab308"
  const Green := "#22c55e"
  const Blue := "#3b82f6"

  /** `getCityDiceColor`: event-die faces 1, 2, 3 name a city colour; every
      other value has none. */
  function CityDiceColor(value: int): (color: Option<string>)
    ensures color.Some? <==> 1 <= value <= 3
    ensures color.Some? ==> color.value in {Yellow, Green, Blue}
    ensures value == 1 ==> color == Some(Yellow)
    ensures value == 2 ==> color == Some(Green)
    ensures value == 3 ==> color == Some(Blue)
  {
    match value
    case 1 => Some(Yellow)
    case 2 => Some(Green)
    case 3 => Some(Blue)
    case _ => None
  }

  /** The three city faces have three different colours. */
  lemma CityColorsDistinct(a: int, b: int)
    requires CityDiceColor(a).Some? && CityDiceColor(b).Some?
    ensures CityDiceColor(a) == CityDiceColor(b) <==> a == b
  {
  }
}
