/**
 * The submission handler: the composition of the imperial height, the
 * validation gate, and on success the collection and its tiles.
 */
module Submit {
  import opened Dinos
  import opened Collection
  import opened Grid

  const NAME_MESSAGE := "Enter a name please"
  const HEIGHT_MESSAGE := "Enter a height greater than 0"
  const WEIGHT_MESSAGE := "Enter a weight greater than 0"

  /** What a submission shows: an error message, or the assembled collection and its grid. */
  datatype Outcome = Rejected(message: string) | Shown(dinoArray: seq<Slot>, tiles: seq<Tile>)

  /** The imperial height in inches from the feet and inches fields. */
  function ImperialHeight(feet: int, inches: int): (h: int)
    ensures 0 <= inches < 12 ==> h / 12 == feet && h % 12 == inches
  {
    feet * 12 + inches
  }

  /** A profile that passes every check of the gate. */
  predicate Complete(human: Human) {
    human.name != "" && human.height >= 1 && human.weight >= 1
  }

  /**
   * clicked: reject an empty name, then a height below 1, then a weight below 1,
   * each with its own message and nothing built; otherwise build the collection
   * in the human's units and lay out the grid with the given draws.
   */
  method Clicked(human: Human, source: seq<Dino>, draws: seq<int>) returns (outcome: Outcome)
    requires |draws| == |source| + 1
    ensures human.name == "" ==> outcome == Rejected(NAME_MESSAGE)
    ensures human.name != "" && human.height < 1 ==> outcome == Rejected(HEIGHT_MESSAGE)
    ensures human.name != "" && human.height >= 1 && human.weight < 1 ==> outcome == Rejected(WEIGHT_MESSAGE)
    ensures outcome.Shown? <==> Complete(human)
    ensures outcome.Shown? ==>
      outcome.dinoArray == Assembled(source, human.units) &&
      |outcome.tiles| == |source| + 1 &&
      forall i :: 0 <= i < |outcome.tiles| ==>
        (outcome.tiles[i] == HumanTile(human.name) <==> i == PlaceholderPosition(|source|))
  {
    if human.name == "" {
      return Rejected(NAME_MESSAGE);
    } else if human.height < 1 {
      return Rejected(HEIGHT_MESSAGE);
    } else if human.weight < 1 {
      return Rejected(WEIGHT_MESSAGE);
    }
    var dinoArray := CreateDinoArray(source, human.units);
    var tiles := UpdateUI(dinoArray, human, draws);
    PlaceholderOnce(source, human.units);
    outcome := Shown(dinoArray, tiles);
  }
}
