/** The canonical Java shop: `updateQuality` ages every item once, in index
    order, and runs no clamp afterwards. */
module MainShop {
  import opened Items
  import opened Rules
  import opened DailyUpdate
  import LegacyScore

  class GildedRose {
    var items: array<Item>

    constructor (items: array<Item>)
      ensures this.items == items
    {
      this.items := items;
    }

    /** Slot k ends as one day of its old value; the legacy score of each item
        is computed and discarded. */
    method UpdateQuality()
      modifies items
      ensures items[..] == AdvanceDay(old(items[..]))
    {
      var score := 0;
      for i := 0 to items.Length
        invariant forall k :: 0 <= k < i ==> items[k] == AgeItem(old(items[k]))
        invariant forall k :: i <= k < items.Length ==> items[k] == old(items[k])
      {
        items[i] := AgeOne(items[i], false);
        score := LegacyScore.OriginalScore(items[i].quality);
      }
    }
  }
}
