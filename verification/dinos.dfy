/**
 * The dinosaur record and its three comparison sentences.
 *
 * One record shape serves both the entry read from the data document (pounds,
 * inches) and the record built from it for the page (in the user's units): the
 * builder copies every descriptive field and converts only the two measures.
 * Records are never changed once built, so they are values here; the shared
 * comparison behaviour the source hangs on a prototype is the datatype's members.
 */
module Dinos {
  import opened NumberFormat

  /** The unit system the user chose on the form. */
  datatype Units = Metric | Imperial

  datatype Dino = Dino(
    species: string,
    diet: string,
    where: string,
    when: string,
    fact: string,
    weight: nat,
    height: nat)
  {
    /**
     * The weight sentence. The ratio is rounded to one decimal before it is
     * compared with 1, so ratios from 0.95 up to (not including) 1.05 count as
     * the same weight; below, the sentence gives the inverse ratio.
     */
    function CompareWeight(humanWeight: nat): (r: string)
      requires humanWeight > 0
      ensures 20 * weight >= 21 * humanWeight ==>
        r == species + " weighed " + Fixed1(RatioTenths(weight, humanWeight)) + " times more than you!"
      ensures 20 * weight < 19 * humanWeight ==>
        r == "You weigh " + InverseRatio(humanWeight, weight) + " times more than " + species + "!"
      ensures 19 * humanWeight <= 20 * weight < 21 * humanWeight ==>
        r == "You weigh the same as " + species + "!"
      ensures weight == humanWeight ==> r == "You weigh the same as " + species + "!"
    {
      var t := RatioTenths(weight, humanWeight);
      var weightRatio := Fixed1(t);
      Fixed1RoundTrip(t);
      RatioBands(weight, humanWeight);
      if FixedTenths(weightRatio) > 10 then
        species + " weighed " + weightRatio + " times more than you!"
      else if FixedTenths(weightRatio) < 10 then
        "You weigh " + InverseRatio(humanWeight, weight) + " times more than " + species + "!"
      else
        "You weigh the same as " + species + "!"
    }

    /** The height sentence: the same three-way choice as for weight. */
    function CompareHeight(humanHeight: nat): (r: string)
      requires humanHeight > 0
      ensures 20 * height >= 21 * humanHeight ==>
        r == species + " was " + Fixed1(RatioTenths(height, humanHeight)) + " times taller than you!"
      ensures 20 * height < 19 * humanHeight ==>
        r == "You are " + InverseRatio(humanHeight, height) + " times taller than " + species + "!"
      ensures 19 * humanHeight <= 20 * height < 21 * humanHeight ==>
        r == "You are the same height as " + species + "!"
      ensures height == humanHeight ==> r == "You are the same height as " + species + "!"
    {
      var t := RatioTenths(height, humanHeight);
      var heightRatio := Fixed1(t);
      Fixed1RoundTrip(t);
      RatioBands(height, humanHeight);
      if FixedTenths(heightRatio) > 10 then
        species + " was " + heightRatio + " times taller than you!"
      else if FixedTenths(heightRatio) < 10 then
        "You are " + InverseRatio(humanHeight, height) + " times taller than " + species + "!"
      else
        "You are the same height as " + species + "!"
    }

    /**
     * The diet sentence. Only the article before the human's diet varies; the
     * dinosaur's diet is always preceded by "a".
     */
    function CompareDiet(humanDiet: string): (r: string)
      ensures humanDiet == diet ==>
        r == "You are " + Article(humanDiet) + " " + humanDiet + " and " + species + " was too!"
      ensures humanDiet != diet ==>
        r == "You are " + Article(humanDiet) + " " + humanDiet + ", but " + species + " was a " + diet + "."
    {
      var article := Article(humanDiet);
      if humanDiet == diet then
        "You are " + article + " " + humanDiet + " and " + species + " was too!"
      else
        "You are " + article + " " + humanDiet + ", but " + species + " was a " + diet + "."
    }
  }

  /** The profile the user submits; the measures are in the chosen units. */
  datatype Human = Human(name: string, height: int, weight: int, diet: string, units: Units)

  /** The article put before the human's diet. */
  function Article(humanDiet: string): (a: string)
    ensures a == "an" <==> humanDiet == "omnivore"
    ensures a == "a" <==> humanDiet != "omnivore"
  {
    if humanDiet == "omnivore" then "an" else "a"
  }

  /**
   * (n / d).toFixed(1) for the inverse ratio of a comparison. A dinosaur whose
   * converted measure rounded to 0 makes the quotient Infinity, which toFixed
   * writes as "Infinity".
   */
  function InverseRatio(n: nat, d: nat): (s: string)
    requires n > 0
    ensures d == 0 ==> s == "Infinity"
    ensures d > 0 ==> IsFixed1Numeral(s) && FixedTenths(s) == RatioTenths(n, d)
  {
    if d == 0 then "Infinity"
    else
      Fixed1RoundTrip(RatioTenths(n, d));
      Fixed1(RatioTenths(n, d))
  }

  /**
   * The record built from a data-document entry: every descriptive field is
   * copied; in metric mode the weight becomes the nearest whole kilogram (a
   * kilogram taken as 2.21 pounds) and the height the nearest whole centimetre,
   * otherwise both measures are kept.
   */
  function FromSource(source: Dino, units: Units): (d: Dino)
    ensures d.species == source.species && d.diet == source.diet && d.where == source.where
    ensures d.when == source.when && d.fact == source.fact
    ensures units == Imperial ==> d.weight == source.weight && d.height == source.height
    ensures units == Metric ==> 221 * (2 * d.weight - 1) <= 200 * source.weight < 221 * (2 * d.weight + 1)
    ensures units == Metric ==> 50 * (2 * d.height - 1) <= 254 * source.height < 50 * (2 * d.height + 1)
  {
    match units
    case Metric => source.(weight := PoundsToKilograms(source.weight), height := InchesToCentimetres(source.height))
    case Imperial => source
  }

  /** In metric mode, converting a record's measures back recovers its height exactly and its weight to within a pound. */
  lemma MetricRoundTrip(source: Dino)
    ensures var d := FromSource(source, Metric);
            CentimetresToInches(d.height) == source.height &&
            source.weight - 1 <= KilogramsToPounds(d.weight) <= source.weight + 1
  {
    HeightRoundTrip(source.height);
    WeightRoundTrip(source.weight);
  }

  /** A 15000 lb Tyrannosaurus against a 3000 lb human: the ratio prints as "5.0". */
  lemma TyrannosaurusWeightExample(rex: Dino)
    requires rex.species == "Tyrannosaurus" && rex.weight == 15000
    ensures rex.CompareWeight(3000) == "Tyrannosaurus weighed 5.0 times more than you!"
  {
    RatioBands(15000, 3000);
    assert RatioTenths(15000, 3000) == 50;
    assert Digit(5) == '5' && Digit(0) == '0';
    assert Fixed1(50) == "5.0";
  }

  /** A carnivorous Tyrannosaurus against a herbivore. */
  lemma TyrannosaurusDietExample(rex: Dino)
    requires rex.species == "Tyrannosaurus" && rex.diet == "carnivore"
    ensures rex.CompareDiet("herbivore") == "You are a herbivore, but Tyrannosaurus was a carnivore."
  {
    assert "herbivore"[0] != "carnivore"[0] && "herbivore"[0] != "omnivore"[0];
    assert Article("herbivore") == "a";
    var r := rex.CompareDiet("herbivore");
    assert r == "You are " + "a" + " " + "herbivore" + ", but " + "Tyrannosaurus" + " was a " + "carnivore" + ".";
    DietSentenceSpelling();
  }

  /** Helper for the example above: the sentence's pieces spell out the literal. */
  lemma DietSentenceSpelling()
    ensures "You are " + "a" + " " + "herbivore" + ", but " + "Tyrannosaurus" + " was a " + "carnivore" + "."
      == "You are a herbivore, but Tyrannosaurus was a carnivore."
  {
    assert "You are " + "a" + " " + "herbivore" == "You are a herbivore";
    assert "You are a herbivore" + ", but " == "You are a herbivore, but ";
    assert "You are a herbivore, but " + "Tyrannosaurus" == "You are a herbivore, but Tyrannosaurus";
    assert "You are a herbivore, but Tyrannosaurus" + " was a " == "You are a herbivore, but Tyrannosaurus was a ";
    assert "You are a herbivore, but Tyrannosaurus was a " + "carnivore" + "."
      == "You are a herbivore, but Tyrannosaurus was a carnivore.";
  }
}
