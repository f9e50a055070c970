# Gilded Rose daily update, modelled in Dafny

The Gilded Rose shop ages its stock once per simulated day. Each item has a
name, a `sellIn` count of days left to sell it, and a `quality`. One call of the
shop's update method walks the item array in index order. For each item it
adjusts `quality`, decrements `sellIn`, and applies a second "expired" adjustment
once the new `sellIn` is negative. An exact match on the name selects the rule:

- "Sulfuras, Hand of Ragnaros" is legendary and never changes.
- "Aged Brie" gains quality.
- "Backstage passes to a TAFKAL80ETC concert" gains quality faster as the concert
  approaches, then becomes worthless.
- Every other name, "Conjured" ones included, loses quality.

The repository holds four near-identical copies of this loop: a canonical Java
one, a second Java one, a C# one and a Python one. The model states the rule
once and proves each copy against it:

- `Items` (items.dfy): the item record, the category set, and the single
  name-to-category dispatch `CategoryOf`.
- `Rules` (rules.dfy): the rule as a specification. `Step` gives one day of one
  item. `AdvanceDay` and `AdvanceDays` give one day and many days of a stock
  list. Lemmas state each category's closed form, the test-pinned scenarios and
  the multi-day invariants.
- `DailyUpdate` (daily_update.dfy): `AgeOne` is the item body exactly as the shop
  code runs it: nested name comparisons and successive writes to the counters.
  It is proved equal to `AgeItem`. The file also holds the `recalcAll` clamp
  pass (`Clamp`, `ClampAll`, the in-place `RecalcAll`) and its lemmas.
- `LegacyScore` (legacy_score.dfy): the discarded "legacy score" helper. Its
  caught division by zero is modelled as a failing `Divide`.
- `MainShop`, `JavaShop`, `DotnetShop`, `PythonShop`: one module per copy. Each
  has a `GildedRose` class over an `array<Item>`. Its update method's loop
  invariant says that slots `[0, i)` are aged and slots `[i, n)` are untouched.

The copies differ in one observable way. In the second Java copy and in the C#
copy, the guard `experimentalFlag = true` assigns rather than compares, so the
clamp pass always runs and sets every negative quality to 0. The canonical Java
copy has no clamp. The Python copy compares with `==` against a flag its
constructor sets to false, so its clamp is never reached.
`ClampAfterDayAgrees` shows when the difference is invisible: every
non-legendary quality in [0, 50] and every legendary quality at least 0.

Where the shop's stated requirements or the code's own comments disagree with
what the code does, the model follows the code:

- The clamp pass reads as unfinished experimental code: its comments ask
  whether it is needed, and its flag starts false. In the second Java copy and
  the C# copy it still runs on every call, and it is modelled that way.
- The shop's rule is that an item's quality is never negative and never above
  50 (Sulfuras excepted). The code only keeps a quality that already starts in
  that range: an Aged Brie at 51 stays at 51, and a generic item at -3 stays at
  -3 where nothing clamps. `Step` and `QualityStaysInRange` therefore state the
  bound only for an in-range start.
- The canonical Java `Item` declares `fullName` and `itemsToSellInTime`, while the
  canonical update code reads `name` and `sellIn`. The model uses `name`,
  `sellIn` and `quality` for every copy.

## Model

| member | source | states |
|---|---|---|
| Items.CategoryOf | src/main/java/com/gildedrose/GildedRose.java:14-62 | each of the three special names selects its own category by exact match, and exactly the remaining names select the generic rule |
| Items.ConjuredIsGeneric | dotnet/src/GildedRose/GildedRose.cs:37-46 | no Conjured rule exists: "Conjured Mama Cakes" and "Conjured" both fall into the generic category |
| Rules.Step | src/main/java/com/gildedrose/GildedRose.java:14-78 | Sulfuras keeps both counters; every other item's sellIn drops by exactly 1; generic quality never rises and stays put at or below 0; Brie quality never falls and stays put at 50 or above; a pass whose old sellIn is at most 0 ends at quality 0; a non-legendary quality starting in [0, 50] ends in [0, 50] |
| Rules.BeforeDay | src/main/java/com/gildedrose/GildedRose.java:14-51 | phase 1 on the old sellIn: generic quality falls by exactly 1 unless at or below 0; Brie rises by exactly 1 unless at or above 50; a pass below 50 rises by 3, 2 or 1 (sellIn below 6, below 11, otherwise), capped at 50, and one at 50 or above is left alone; Sulfuras is left alone |
| Rules.Expired | src/main/java/com/gildedrose/GildedRose.java:57-78 | phase 3, once the new sellIn is negative: a pass drops to 0; generic quality falls by 1 more unless at or below 0; Brie rises by 1 more unless at or above 50; Sulfuras is left alone |
| Rules.AgeItem | src/main/java/com/gildedrose/GildedRose.java:52-55 | one day of one item keeps its name, leaves a Sulfuras item unchanged and takes 1 off every other item's sellIn |
| Rules.AdvanceDays | src/main/java/com/gildedrose/GildedRose.java:10-13 | any number of days keeps the length of the stock list and the name in every slot |
| Rules.GenericQuality | src/main/java/com/gildedrose/GildedRose.java:14-66 | generic quality loses 1 if positive and 1 more if the new sellIn is negative, never below 0; quality at or below 0 is unchanged |
| Rules.AppreciatingQuality | src/main/java/com/gildedrose/GildedRose.java:30-77 | Brie quality gains 1 below 50 and 1 more once expired, never past 50; quality at 50 or above is unchanged |
| Rules.EventTicketQuality | src/main/java/com/gildedrose/GildedRose.java:30-70 | a pass with old sellIn at most 0 ends at 0; otherwise it gains 3, 2 or 1 (old sellIn below 6, below 11, otherwise), capped at 50, and nothing from 50 or above |
| Rules.PinnedScenarios | src/test/java/com/gildedrose/GildedRoseTest.java:9-268 | the (sellIn, quality) pairs that the Java, C# and Python tests expect after one call, e.g. (-5,40)→(-6,38), Brie (0,0)→(-1,2), pass (5,40)→(4,43), Sulfuras (-2,20) unchanged |
| Rules.AdvanceDay | src/main/java/com/gildedrose/GildedRose.java:13-80 | one pass of the loop keeps the length, the order and every slot's name; a Sulfuras slot is unchanged and every other slot's sellIn drops by exactly 1 |
| Rules.AdvanceDayKeepsRange | src/main/java/com/gildedrose/GildedRose.java:17-77 | one day keeps every non-legendary quality that lies in [0, 50] inside [0, 50] |
| Rules.QualityStaysInRange | src/main/java/com/gildedrose/GildedRose.java:10-81 | non-legendary qualities that start in [0, 50] stay in [0, 50] after any number of days |
| Rules.LegendaryNeverChanges | src/main/java/com/gildedrose/GildedRose.java:17-66 | a Sulfuras item is unchanged after any number of days, even with negative sellIn |
| Rules.SellInCountsDown | src/main/java/com/gildedrose/GildedRose.java:52-55 | after n days every non-legendary sellIn is exactly n lower |
| Rules.AppreciatingNeverLoses | src/main/java/com/gildedrose/GildedRose.java:30-77 | Brie quality never decreases over any number of days |
| Rules.GenericNeverGains | src/main/java/com/gildedrose/GildedRose.java:14-66 | generic quality never increases over any number of days |
| Rules.TicketStaysWorthless | src/main/java/com/gildedrose/GildedRose.java:57-70 | a pass whose sellIn is at most 0 has quality 0 after every later day, whatever its input quality |
| DailyUpdate.AgeOne | src/main/java/com/gildedrose/GildedRose.java:14-78 | the item body with its nested name comparisons and successive writes equals one day of the rule; with the C#/Python Conjured statement added it still does, since that statement stores back the value it read |
| DailyUpdate.Clamp | implementations/java/src/main/java/com/gildedrose/GildedRose.java:112-120 | the recalc threshold keeps name and sellIn, leaves quality at least 0 unchanged and sets a negative quality to 0 |
| DailyUpdate.RecalcAll | implementations/java/src/main/java/com/gildedrose/GildedRose.java:109-122 | the in-place pass leaves every slot equal to the clamp of its old value |
| DailyUpdate.ClampAll | implementations/java/src/main/java/com/gildedrose/GildedRose.java:109-122 | after the pass every item, Sulfuras included, has quality at least 0; length, order, names and sellIn are kept, and an item already at 0 or above is unchanged |
| DailyUpdate.ClampAllIdentity | implementations/java/src/main/java/com/gildedrose/GildedRose.java:119-120 | the pass changes nothing on a list without negative qualities |
| DailyUpdate.ClampAfterDayAgrees | implementations/java/src/main/java/com/gildedrose/GildedRose.java:104-106 | when non-legendary qualities start in [0, 50] and legendary ones at least 0, a day plus the always-run clamp equals the plain day |
| DailyUpdate.ClampedDayKeepsLegendary | implementations/java/src/main/java/com/gildedrose/GildedRose.java:62-120 | a Sulfuras item with quality at least 0 keeps both counters through a day and the clamp |
| LegacyScore.Divide | src/main/java/com/gildedrose/GildedRose.java:86-88 | division fails exactly on a zero divisor and otherwise gives the quotient |
| LegacyScore.OriginalScore | src/main/java/com/gildedrose/GildedRose.java:83-91 | the canonical helper returns 42 for an even quality (the caught division by zero) and 100 for an odd one |
| LegacyScore.Score | dotnet/src/GildedRose/GildedRose.cs:163-175 | the other copies' helper always takes the division-by-zero path and returns FIFTY, which is 49 |
| MainShop.GildedRose.constructor | src/main/java/com/gildedrose/GildedRose.java:6-8 | the shop borrows the caller's item array |
| MainShop.GildedRose.UpdateQuality | src/main/java/com/gildedrose/GildedRose.java:10-81 | each slot is aged exactly once, in index order; nothing else is written, and the legacy score is discarded |
| JavaShop.GildedRose.constructor | implementations/java/src/main/java/com/gildedrose/GildedRose.java:12-17 | the shop borrows the item array and starts with the flag false |
| JavaShop.GildedRose.Process | implementations/java/src/main/java/com/gildedrose/GildedRose.java:19-107 | the array ends as the clamp of one day of its old contents, and the flag is left true by the assignment in the guard |
| JavaShop.NegativeQualityIsClamped | implementations/java/src/main/java/com/gildedrose/GildedRose.java:104-120 | a generic (5, -3) item ends as (4, 0): the clamp runs on every call |
| DotnetShop.GildedRose.constructor | dotnet/src/GildedRose/GildedRose.cs:11-17 | the shop borrows the item array and starts with the flag false |
| DotnetShop.GildedRose.Process | dotnet/src/GildedRose/GildedRose.cs:19-144 | the array ends as the clamp of one day of its old contents; the Conjured statement changes nothing and the flag is left true |
| PythonShop.GildedRose.constructor | implementations/python/gilded_rose.py:21-23 | the shop borrows the item list and starts with the flag false |
| PythonShop.GildedRose.Process | implementations/python/gilded_rose.py:25-102 | each slot is aged once as the index advances by exactly 1; the clamp applies only when the flag is true |
| PythonShop.NegativeQualitySurvives | implementations/python/gilded_rose.py:100-102 | a generic (5, -3) item in a freshly built shop ends as (4, -3): the clamp is never reached |

## Left out

- Console output (`println`, `Console.WriteLine`, `print`) and its timestamps are I/O and never touch an item's counters.
- The static identity-keyed `cache` maps are global state that only feeds the "Invalid item detected" message. They never write `sellIn` or `quality`.
- 32-bit integers: the Java and C# `sellIn - 1` wraps at the minimum 32-bit value, but the model uses unbounded integers. The guarded quality arithmetic cannot overflow, since it only adds below 50 and subtracts above 0. The one exception is the transient decrement in the C# Conjured statement `Quality = Quality--`, which is unguarded. At the minimum 32-bit value it wraps in a default (unchecked) build and is then overwritten by the value it read, so the outcome is unchanged. A checked build would throw an overflow exception instead, and the model does not represent that.
- Null references: a null item slot or a null name makes the Java and C# copies throw at the first `name.equals` / `Name.Equals`. The model's items and names are values and cannot be null.
- Aliasing: the items are values in an array, so one item object held in two slots, which the source would age twice, is not represented.
- The legacy score helper's arguments other than the quality are unused by its body and are not passed.
- `toString` / `__str__` formatting of an item is display only.
- Commented-out code (a Conjured "degradation = 2" idea, alternative clamp lines) is not modelled, and no Conjured rule is invented.
- The "intro_behavioral" tests that expect "0, 0" for a (5, 10) generic item contradict the code and their sibling tests. The model follows the code: (4, 9).
- The Python item list is modelled as an array, since the loop never changes its length.
