# Dinosaur comparison page: a Dafny model of its core

The page asks for a person's name, height, weight, diet and unit system, then
draws a grid: one tile per dinosaur from a static data document, with the
person's own tile in the middle. Each dinosaur tile shows one fact. The fact is
picked at random from six kinds: where it lived, when it lived, its stored fact,
or a sentence comparing its weight, height or diet with the person's. A Pigeon
always shows its stored fact.

This project models the logic behind that page in `app.js`:

- `number_format.dfy`, module `NumberFormat`: the arithmetic and number formatting
  the page relies on. It covers `Math.round` on the pound-to-kilogram and
  inch-to-centimetre conversions, and `toFixed(1)` on a ratio. It also covers
  JavaScript's coercion of that numeral back to a number when it is compared
  with 1.
- `dinos.dfy`, module `Dinos`: the dinosaur record (`DinoConstructor`), the three
  comparison sentences (`compareWeight`, `compareHeight`, `compareDiet`) and the
  person's profile.
- `collection.dfy`, module `Collection`: `createDinoArray`. It pushes one record
  per entry, then splices the placeholder in at index 4.
- `grid.dfy`, module `Grid`: the fact switch of `createDinoElement` and the tile
  choice of `updateUI`.
- `submit.dfy`, module `Submit`: the validation gate of `clicked` and the
  imperial height composition of `getHumanData`.

Modelling choices:

- Records are never changed after construction, so they are a datatype. The
  prototype's comparison methods are members of that datatype.
- Weights and heights are natural numbers. A value "to one decimal" is a whole
  number of tenths.
- `round(w / 2.21)` is `(200 w + 221) / 442`.
- `round(h * 2.54)` is `(254 h + 50) / 100`.
- `(a / b).toFixed(1)` is `(20 a + b) / (2 b)` tenths.
- The comparison functions write the ratio as a numeral and read it back before
  comparing it with 1, as the source does. `Fixed1RoundTrip` shows that this is
  the same as comparing the tenths with 10.
- The random fact category is a parameter (`draw`). So are the draws for a whole
  grid. The data-document entries are an input sequence.
- `Math.round(Math.random() * 5)` is not uniform over 0..5; the category is a
  parameter, so the distribution does not enter the model.
- `Math.round` rounds halves up; the model's integer formulas do the same.

## Model

| member | source | states |
|---|---|---|
| `NumberFormat.Decimal` | app.js:29 | a whole number is written as a non-empty digit string with no leading zero; 0 is exactly "0" and only numbers below 10 have one digit |
| `NumberFormat.DecimalRoundTrip` | app.js:29 | reading back the decimal numeral of n gives n |
| `NumberFormat.Fixed1` | app.js:27 | toFixed(1) writes digits, a point, then exactly one digit: the integer part and then the tenths digit |
| `NumberFormat.Fixed1RoundTrip` | app.js:27-31 | coercing the toFixed(1) numeral back to a number gives exactly the rounded value, so comparing it with 1 compares the tenths with 10 |
| `NumberFormat.RatioTenths` | app.js:27 | the ratio to one decimal is the number of tenths nearest to a/b, a half rounded up |
| `NumberFormat.RatioBands` | app.js:27-34 | the rounded ratio is above 1.0 iff a/b >= 1.05, below 1.0 iff a/b < 0.95, and exactly 1.0 in between |
| `NumberFormat.RatioOfEqual` | app.js:38-45 | equal quantities always round to the ratio 1.0 |
| `NumberFormat.PoundsToKilograms` | app.js:17 | the metric weight is the whole number nearest to w/2.21 |
| `NumberFormat.InchesToCentimetres` | app.js:18 | the metric height is the whole number nearest to h*2.54, a half rounded up |
| `NumberFormat.WeightRoundTrip` | app.js:17 | converting to kilograms and rounding back to pounds is off by at most one pound |
| `NumberFormat.HeightRoundTrip` | app.js:18 | converting to centimetres and rounding back gives the original inches exactly |
| `NumberFormat.TwoHundredTwentyPounds` | app.js:17 | 220 pounds become 100 |
| `Dinos.Dino.CompareWeight` | app.js:26-36 | ratio >= 1.05 gives "{species} weighed {ratio} times more than you!"; ratio < 0.95 gives "You weigh {inverse ratio} times more than {species}!"; otherwise, and always for equal weights, "You weigh the same as {species}!" |
| `Dinos.Dino.CompareHeight` | app.js:37-46 | the same three bands with the "was … times taller" / "You are … times taller" / "the same height" sentences; equal heights give the "same" sentence |
| `Dinos.Dino.CompareDiet` | app.js:47-55 | equal diets give "You are {art} {diet} and {species} was too!"; different diets end "… but {species} was a {dino diet}." with "a" whatever that diet is |
| `Dinos.Article` | app.js:48 | the article is "an" iff the human diet is "omnivore", otherwise "a" |
| `Dinos.InverseRatio` | app.js:32 | the inverse ratio is the one-decimal numeral of n/d, or "Infinity" when the dinosaur's measure is 0 |
| `Dinos.FromSource` | app.js:9-23 | species, diet, where, when and fact are copied; metric mode rounds the weight to the nearest w/2.21 and the height to the nearest h*2.54; imperial mode keeps both |
| `Dinos.MetricRoundTrip` | app.js:16-18 | a metric record converts back to the original height exactly and to within a pound of the original weight |
| `Dinos.TyrannosaurusWeightExample` | app.js:26-29 | a 15000 lb Tyrannosaurus against a 3000 lb human gives "Tyrannosaurus weighed 5.0 times more than you!" |
| `Dinos.TyrannosaurusDietExample` | app.js:47-54 | a carnivore Tyrannosaurus against a herbivore gives "You are a herbivore, but Tyrannosaurus was a carnivore." |
| `Collection.SpliceInsert` | app.js:71 | splice(k, 0, x) inserts x at k clamped to the length; elements before are unchanged and those after shift right by one |
| `Collection.Built` | app.js:65-68 | one built record per source entry, in source order |
| `Collection.PlaceholderPosition` | app.js:71 | the placeholder lands at index 4, or at the end when there are fewer than four entries |
| `Collection.Assembled` | app.js:61-74 | length is source count + 1; with at least four entries, 0..3 are the built entries 0..3, 4 is the placeholder and i > 4 holds the built entry i-1; with fewer, the placeholder is appended |
| `Collection.PlaceholderOnce` | app.js:71 | the placeholder occurs exactly once (multiset count 1), at PlaceholderPosition and nowhere else |
| `Collection.CreateDinoArray` | app.js:61-74 | the push loop followed by the splice yields exactly the assembled collection |
| `Grid.CreateDinoElement` | app.js:77-102 | a Pigeon always gets its stored fact, whatever the draw; otherwise draws 0..5 give the where, when, stored-fact, weight, height and diet sentences, and any other draw "Dinosaurs are cool!"; the tile is titled with the species |
| `Grid.ShortSourceHidesHuman` | app.js:163 | with fewer than four entries no index passes the index-4 test, while the placeholder sits at index |source|, where `createDinoElement` is called on it |
| `Grid.ThreeEntriesExample` | app.js:163 | with three entries the placeholder is at index 3 and no index is 4 |
| `Grid.AsWrittenAgreesFromFour` | app.js:161-163 | with at least four entries, "the index is 4" and "the element is the placeholder" pick the same tile |
| `Grid.UpdateUI` | app.js:155-170 | one tile per element in order; the placeholder becomes the human's tile, titled with the name; every record becomes a dinosaur tile titled with its species, and a Pigeon's tile shows its stored fact |
| `Submit.ImperialHeight` | app.js:120 | feet*12 + inches, which splits back into the same feet and inches when inches is 0..11 |
| `Submit.Clicked` | app.js:173-193 | checks an empty name, then height < 1, then weight < 1, each with its own message and nothing built; it shows the grid iff all three pass, and then the collection is the one assembled in the human's units and exactly one tile, at the placeholder's position, is the human's |

## Left out

- Reading the data document (`rawDinoData`, `readTextFile`, app.js:2-7 and app.js:212-232): a synchronous network fetch and `JSON.parse`. The entries are an input sequence.
- All page work: element creation and markup in `createDinoElement` and `createHumanElement` (including the lower-cased image file name), the document fragment and display toggles in `updateUI`, `repeat`, `changeUnits`, the listener set-up (app.js:206-209) and the form reads in `getHumanData`. Tiles are modelled as a title plus a fact.
- The distribution of `Math.round(Math.random() * 5)`: the category is a parameter. That expression makes 0 and 5 half as likely as the others.
- Floating point: `toFixed(1)` and `Math.round` are modelled on exact rationals. They can differ from IEEE-754 results exactly at a rounding half, for example a height h with h mod 50 = 25, where h*2.54 ends in .5.
- `toFixed` switches to exponent notation for values of 10^21 and above; that is not modelled.
- Weights and heights are whole numbers. Fractional entries and fractional form values are not modelled.
- String-to-number coercion of form values (for example `"" < 1`) is not modelled. The human's measures are already integers.
- `Dinos.Dino.CompareWeight`, `Dinos.Dino.CompareHeight`: require a positive human measure. The source would divide by zero, but only reaches these after the gate has rejected measures below 1.
- `Grid.CreateDinoElement`: requires positive human measures for the same reason, since it may call the comparisons.
- `Dinos.InverseRatio`: requires a positive numerator, the human's measure; the 0/0 case, which JavaScript writes as "NaN", lies behind the gate and is not modelled.
- `Grid.UpdateUI`: does not restate the category-to-sentence mapping per tile. That mapping is the contract of `Grid.CreateDinoElement`, which it calls for every record.
- `Submit.Clicked`: the error message is its text. The `<p>` markup it is written into is not modelled.

## Findings

| source | as written | input that shows it | evidently intended | confidence | as-written member | corrected member |
|---|---|---|---|---|---|---|
| app.js:163 | `updateUI` gives the human tile to index 4, while `splice(4, 0, …)` puts the placeholder at the end when there are fewer than four entries | a data document with three entries: the placeholder is at index 3, the collection has no index 4, so the index-4 test never fires and the placeholder string is passed to `createDinoElement`, which throws on it (`species` is undefined at app.js:106, and draws 3-5 already fail at app.js:92-98); `updateUI` aborts after hiding the form, so no grid and no repeat button appear | the human's tile is drawn exactly once, where the placeholder is | medium (only shows with a data document of fewer than four entries); not executed | `Grid.ShortSourceHidesHuman` | `Grid.UpdateUI` |

The corrected `Grid.UpdateUI` picks the human's tile by the element (`Grid.IsHumanSlot`).
`Grid.AsWrittenAgreesFromFour` shows this is the same choice as the source's for four or more entries.
`Submit.Clicked` proves that the corrected grid has exactly one human tile for any number of entries.
