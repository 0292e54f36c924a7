/**
 * The tiles of the result grid: which tile each collection element becomes,
 * and the fact shown on a dinosaur's tile. The random draw of a fact category
 * is a parameter; markup and images are not modelled.
 */
module Grid {
  import opened Dinos
  import opened Collection

  /** A grid tile: the human's (titled with the name) or a dinosaur's (titled with the species, showing one fact). */
  datatype Tile = HumanTile(name: string) | DinoTile(title: string, fact: string)

  const PIGEON := "Pigeon"
  const DEFAULT_FACT := "Dinosaurs are cool!"

  /**
   * createDinoElement: pick the fact by category (a Pigeon always gets category
   * 2, its stored fact; any other species the drawn number) and title the tile
   * with the species.
   */
  method CreateDinoElement(dino: Dino, human: Human, draw: int) returns (tile: Tile)
    requires human.height > 0 && human.weight > 0
    ensures tile.DinoTile? && tile.title == dino.species
    ensures dino.species == PIGEON ==> tile.fact == dino.fact
    ensures dino.species != PIGEON && draw == 0 ==>
      tile.fact == "The " + dino.species + " lived in " + dino.where + "."
    ensures dino.species != PIGEON && draw == 1 ==>
      tile.fact == "The " + dino.species + " lived in the " + dino.when + " period."
    ensures dino.species != PIGEON && draw == 2 ==> tile.fact == dino.fact
    ensures dino.species != PIGEON && draw == 3 ==> tile.fact == dino.CompareWeight(human.weight)
    ensures dino.species != PIGEON && draw == 4 ==> tile.fact == dino.CompareHeight(human.height)
    ensures dino.species != PIGEON && draw == 5 ==> tile.fact == dino.CompareDiet(human.diet)
    ensures dino.species != PIGEON && !(0 <= draw <= 5) ==> tile.fact == DEFAULT_FACT
  {
    var category := if dino.species == PIGEON then 2 else draw;
    var fact: string;
    match category {
      case 0 => fact := "The " + dino.species + " lived in " + dino.where + ".";
      case 1 => fact := "The " + dino.species + " lived in the " + dino.when + " period.";
      case 2 => fact := dino.fact;
      case 3 => fact := dino.CompareWeight(human.weight);
      case 4 => fact := dino.CompareHeight(human.height);
      case 5 => fact := dino.CompareDiet(human.diet);
      case _ => fact := DEFAULT_FACT;
    }
    tile := DinoTile(dino.species, fact);
  }

  /** updateUI's test for the human's tile, as written: the index is 4. */
  predicate IsHumanIndexAsWritten(i: nat) {
    i == PLACEHOLDER_INDEX
  }

  /**
   * With fewer than four entries the placeholder sits below index 4 and the
   * collection has no index 4: the test as written never picks the human's
   * tile, and the placeholder itself is passed to createDinoElement, which
   * throws on it (the string has no species), so nothing is drawn at all.
   */
  lemma ShortSourceHidesHuman(source: seq<Dino>, units: Units)
    requires |source| < 4
    ensures var r := Assembled(source, units);
            (forall i :: 0 <= i < |r| ==> !IsHumanIndexAsWritten(i)) &&
            r[|source|] == HumanPlaceholder && !IsHumanIndexAsWritten(|source|)
  {
  }

  /** A three-entry source: the human's tile never appears. */
  lemma ThreeEntriesExample(a: Dino, b: Dino, c: Dino)
    ensures var r := Assembled([a, b, c], Imperial);
            |r| == 4 && r[3] == HumanPlaceholder && !IsHumanIndexAsWritten(3) &&
            forall i :: 0 <= i < |r| ==> !IsHumanIndexAsWritten(i)
  {
    ShortSourceHidesHuman([a, b, c], Imperial);
  }

  /** The human's tile as intended: the element is the placeholder. */
  predicate IsHumanSlot(slot: Slot) {
    slot == HumanPlaceholder
  }

  /**
   * With four or more entries (the document's case) the test as written and the
   * intended one pick the same index.
   */
  lemma AsWrittenAgreesFromFour(source: seq<Dino>, units: Units)
    requires |source| >= 4
    ensures var r := Assembled(source, units);
            forall i :: 0 <= i < |r| ==> (IsHumanIndexAsWritten(i) <==> IsHumanSlot(r[i]))
  {
    PlaceholderOnce(source, units);
  }

  /**
   * updateUI: one tile per collection element, in order; the placeholder
   * becomes the human's tile and every record a dinosaur tile with its own draw.
   */
  method UpdateUI(dinoArray: seq<Slot>, human: Human, draws: seq<int>) returns (tiles: seq<Tile>)
    requires |draws| == |dinoArray|
    requires human.height > 0 && human.weight > 0
    ensures |tiles| == |dinoArray|
    ensures forall i :: 0 <= i < |tiles| ==> (tiles[i].HumanTile? <==> IsHumanSlot(dinoArray[i]))
    ensures forall i :: 0 <= i < |tiles| && IsHumanSlot(dinoArray[i]) ==> tiles[i] == HumanTile(human.name)
    ensures forall i :: 0 <= i < |tiles| && dinoArray[i].DinoSlot? ==>
      tiles[i].DinoTile? && tiles[i].title == dinoArray[i].dino.species &&
      (dinoArray[i].dino.species == PIGEON ==> tiles[i].fact == dinoArray[i].dino.fact)
  {
    tiles := [];
    for i := 0 to |dinoArray|
      invariant |tiles| == i
      invariant forall j :: 0 <= j < i ==> (tiles[j].HumanTile? <==> IsHumanSlot(dinoArray[j]))
      invariant forall j :: 0 <= j < i && IsHumanSlot(dinoArray[j]) ==> tiles[j] == HumanTile(human.name)
      invariant forall j :: 0 <= j < i && dinoArray[j].DinoSlot? ==>
        tiles[j].DinoTile? && tiles[j].title == dinoArray[j].dino.species &&
        (dinoArray[j].dino.species == PIGEON ==> tiles[j].fact == dinoArray[j].dino.fact)
    {
      var gridSquare: Tile;
      if IsHumanSlot(dinoArray[i]) {
        gridSquare := HumanTile(human.name);
      } else {
        gridSquare := CreateDinoElement(dinoArray[i].dino, human, draws[i]);
      }
      tiles := tiles + [gridSquare];
    }
  }
}
