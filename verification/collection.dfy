/**
 * Assembly of the collection the grid is drawn from: one built record per
 * data-document entry, in document order, with a single placeholder for the
 * human inserted at position 4.
 */
module Collection {
  import opened Dinos

  /** An element of the assembled collection: a built record, or the placeholder string. */
  datatype Slot = DinoSlot(dino: Dino) | HumanPlaceholder

  /** Where the placeholder is inserted. */
  const PLACEHOLDER_INDEX: nat := 4

  /**
   * Array.prototype.splice(start, 0, item) on s, for a non-negative start: the
   * start is clamped to the length, so on a shorter array the item is appended.
   */
  function SpliceInsert<T>(s: seq<T>, start: nat, item: T): (r: seq<T>)
    ensures |r| == |s| + 1
    ensures var k := if start <= |s| then start else |s|;
            r[k] == item &&
            (forall i :: 0 <= i < k ==> r[i] == s[i]) &&
            (forall i :: k < i < |r| ==> r[i] == s[i - 1])
  {
    var k := if start <= |s| then start else |s|;
    s[..k] + [item] + s[k..]
  }

  /** The records built from every entry, in order, before the placeholder goes in. */
  function Built(source: seq<Dino>, units: Units): (r: seq<Slot>)
    ensures |r| == |source|
    ensures forall i :: 0 <= i < |r| ==> r[i] == DinoSlot(FromSource(source[i], units))
  {
    seq(|source|, i requires 0 <= i < |source| => DinoSlot(FromSource(source[i], units)))
  }

  /** Where the placeholder ends up: index 4, or the end of a collection of fewer than four entries. */
  function PlaceholderPosition(count: nat): (k: nat)
    ensures k <= count && k <= PLACEHOLDER_INDEX
    ensures k == PLACEHOLDER_INDEX || k == count
  {
    if PLACEHOLDER_INDEX <= count then PLACEHOLDER_INDEX else count
  }

  /**
   * The assembled collection: one more element than the source; with at least
   * four entries, elements 0..3 are the first four built records, element 4 the
   * placeholder and element i > 4 the record built from entry i - 1; with fewer,
   * the built records followed by the placeholder.
   */
  function Assembled(source: seq<Dino>, units: Units): (r: seq<Slot>)
    ensures |r| == |source| + 1
    ensures |source| >= 4 ==>
      r[4] == HumanPlaceholder &&
      (forall i :: 0 <= i < 4 ==> r[i] == DinoSlot(FromSource(source[i], units))) &&
      (forall i :: 4 < i < |r| ==> r[i] == DinoSlot(FromSource(source[i - 1], units)))
    ensures |source| < 4 ==>
      r[|source|] == HumanPlaceholder &&
      forall i :: 0 <= i < |source| ==> r[i] == DinoSlot(FromSource(source[i], units))
  {
    SpliceInsert(Built(source, units), PLACEHOLDER_INDEX, HumanPlaceholder)
  }

  /** The placeholder occurs exactly once, at PlaceholderPosition. */
  lemma PlaceholderOnce(source: seq<Dino>, units: Units)
    ensures var r := Assembled(source, units);
            (forall i :: 0 <= i < |r| ==> (r[i] == HumanPlaceholder <==> i == PlaceholderPosition(|source|))) &&
            multiset(r)[HumanPlaceholder] == 1
  {
    var r := Assembled(source, units);
    var b := Built(source, units);
    var k := PlaceholderPosition(|source|);
    assert r == b[..k] + [HumanPlaceholder] + b[k..];
    assert HumanPlaceholder !in b;
    assert multiset(b)[HumanPlaceholder] == 0;
    assert b == b[..k] + b[k..];
    assert multiset(b) == multiset(b[..k]) + multiset(b[k..]);
    assert multiset(r) == multiset(b[..k]) + multiset([HumanPlaceholder]) + multiset(b[k..]);
  }

  /**
   * createDinoArray: push one built record per entry, then splice the
   * placeholder in at index 4.
   */
  method CreateDinoArray(source: seq<Dino>, units: Units) returns (dinoArray: seq<Slot>)
    ensures dinoArray == Assembled(source, units)
  {
    dinoArray := [];
    var i := 0;
    while i < |source|
      invariant 0 <= i <= |source|
      invariant |dinoArray| == i
      invariant forall j :: 0 <= j < i ==> dinoArray[j] == DinoSlot(FromSource(source[j], units))
    {
      dinoArray := dinoArray + [DinoSlot(FromSource(source[i], units))];
      i := i + 1;
    }
    assert dinoArray == Built(source, units);
    dinoArray := SpliceInsert(dinoArray, PLACEHOLDER_INDEX, HumanPlaceholder);
  }
}
