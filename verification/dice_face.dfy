/** The die face drawing: where the dots of each face go, in percent of the
    face, and the colour the event die is painted. */
module DiceFace {
  import opened Wrappers
  import DiceRules

  /** A dot position (x, y) in percent of the face. */
  type Dot = (int, int)

  predicate OnGrid(c: int) {
    c == 25 || c == 50 || c == 75
  }

  const Centre: Dot := (50, 50)

  /** The half-turn of the face about its centre. */
  function Rotate(d: Dot): Dot {
    (100 - d.0, 100 - d.1)
  }

  /** `getDotPositions`: the dots of face `value`; anything other than
      1..6 has none. */
  function DotPositions(value: int): (dots: seq<Dot>)
    ensures 1 <= value <= 6 ==> |dots| == value
    ensures !(1 <= value <= 6) ==> dots == []
    ensures forall i :: 0 <= i < |dots| ==> OnGrid(dots[i].0) && OnGrid(dots[i].1)
    ensures Centre in dots <==> 1 <= value <= 6 && value % 2 == 1
    ensures forall i, j :: 0 <= i < j < |dots| ==> dots[i] != dots[j]
    ensures forall i :: 0 <= i < |dots| ==> Rotate(dots[i]) in dots
  {
    match value
    case 1 => [(50, 50)]
    case 2 => [(25, 25), (75, 75)]
    case 3 => [(25, 25), (50, 50), (75, 75)]
    case 4 => [(25, 25), (25, 75), (75, 25), (75, 75)]
    case 5 => [(25, 25), (25, 75), (50, 50), (75, 25), (75, 75)]
    case 6 => [(25, 25), (25, 50), (25, 75), (75, 25), (75, 50), (75, 75)]
    case _ => []
  }

  /** The layout of each face: 2 and 3 run along the top-left to
      bottom-right diagonal, 4 and 5 use the four corners (5 adds the
      centre), and 6 has three dots on each side. */
  lemma DotLayout(value: int)
    ensures value == 2 || value == 3 ==>
      forall i :: 0 <= i < |DotPositions(value)| ==> DotPositions(value)[i].0 == DotPositions(value)[i].1
    ensures value == 4 || value == 5 ==>
      forall i :: 0 <= i < |DotPositions(value)| ==>
        DotPositions(value)[i] == Centre || (DotPositions(value)[i].0 != 50 && DotPositions(value)[i].1 != 50)
    ensures value == 6 ==>
      forall i :: 0 <= i < |DotPositions(value)| ==> DotPositions(value)[i].0 != 50
  {
    match value
    case 2 =>
    case 3 =>
    case 4 =>
    case 5 =>
    case 6 =>
    case _ =>
  }

  /** The colour of the event die when no city colour applies. */
  const PirateShade := "#1e293b"

  /** The die component's own `getCityDiceColor`: the city colours for 1, 2
      and 3, the dark pirate shade for every other value. */
  function FaceColor(value: int): (color: string)
    ensures 1 <= value <= 3 ==> color != PirateShade
    ensures !(1 <= value <= 3) ==> color == PirateShade
  {
    match value
    case 1 => "#eab308"
    case 2 => "#22c55e"
    case 3 => "#3b82f6"
    case _ => "#1e293b"
  }

  /** The component agrees with the store on the city faces and paints the
      dark shade exactly where the store has no colour. */
  lemma FaceColorAgreesWithStore(value: int)
    ensures FaceColor(value) == DiceRules.CityDiceColor(value).GetOr(PirateShade)
    ensures DiceRules.CityDiceColor(value).None? <==> FaceColor(value) == PirateShade
  {
  }
}
