/** The item record shared by every copy of the shop, and the one place where an
    item's name is turned into the rule category that the daily update applies. */
module Items {

  /** One stocked good. The records of the different copies name the two
      counters differently; this model uses neutral names. */
  datatype Item = Item(name: string, sellIn: int, quality: int)

  /** The exact names the rule table compares against. */
  const AgedBrie: string := "Aged Brie"
  const BackstagePasses: string := "Backstage passes to a TAFKAL80ETC concert"
  const Sulfuras: string := "Sulfuras, Hand of Ragnaros"
  /** Named by the guard of the Conjured statement of the C# and Python copies. */
  const ConjuredMamaCakes: string := "Conjured Mama Cakes"

  /** The quality ceiling for items that gain quality. */
  const MaxQuality: int := 50

  /** The closed set of rule categories. */
  datatype Category = Legendary | Appreciating | EventTicket | Generic

  /** The single dispatch point: an exact name match selects a category, and
      every other name, Conjured ones included, falls to the generic rule. */
  function CategoryOf(name: string): (c: Category)
    ensures c == Legendary <==> name == Sulfuras
    ensures c == Appreciating <==> name == AgedBrie
    ensures c == EventTicket <==> name == BackstagePasses
    ensures c == Generic <==> name != AgedBrie && name != BackstagePasses && name != Sulfuras
  {
    if name == Sulfuras then Legendary
    else if name == AgedBrie then Appreciating
    else if name == BackstagePasses then EventTicket
    else Generic
  }

  /** No rule exists for Conjured items: they take the generic rule. */
  lemma ConjuredIsGeneric()
    ensures CategoryOf(ConjuredMamaCakes) == Generic
    ensures CategoryOf("Conjured") == Generic
  {
  }
}
