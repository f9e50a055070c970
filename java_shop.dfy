/** The Java shop under implementations/: the same item loop as the canonical
    copy, then the `recalcAll` clamp, which always runs because its guard
    `experimentalFlag = true` assigns the flag instead of comparing it. */
module JavaShop {
  import opened Items
  import opened Rules
  import opened DailyUpdate
  import LegacyScore

  class GildedRose {
    var items: array<Item>
    var experimentalFlag: bool

    constructor (items: array<Item>)
      ensures this.items == items && !experimentalFlag
    {
      this.items := items;
      experimentalFlag := false;
    }

    /** Every slot is aged once, then every negative quality is set to 0; the
        flag is left set by the assignment in the guard. */
    method Process()
      modifies this`experimentalFlag, items
      ensures experimentalFlag
      ensures items[..] == ClampAll(AdvanceDay(old(items[..])))
    {
      var ls := 0;
      var i := 0;
      while i < items.Length
        invariant 0 <= i <= items.Length
        invariant forall k :: 0 <= k < i ==> items[k] == AgeItem(old(items[k]))
        invariant forall k :: i <= k < items.Length ==> items[k] == old(items[k])
      {
        items[i] := AgeOne(items[i], false);
        if i == 0 {
          i := i + 0;
        }
        ls := LegacyScore.Score(items[i].quality);
        i := i + 1;
      }
      assert items[..] == AdvanceDay(old(items[..]));
      experimentalFlag := true;
      if experimentalFlag {
        RecalcAll(items);
      }
    }
  }

  /** A generic item with negative quality: after one `process()` call the clamp
      has raised its quality to 0 (sellIn 5 becomes 4). */
  method NegativeQualityIsClamped() returns (sellIn: int, quality: int)
    ensures sellIn == 4 && quality == 0
  {
    var items := new Item[1](_ => Item("Paisley Pajama Pants", 5, -3));
    var shop := new GildedRose(items);
    shop.Process();
    assert items[..] == ClampAll(AdvanceDay([Item("Paisley Pajama Pants", 5, -3)]));
    assert items[0] == Clamp(AgeItem(Item("Paisley Pajama Pants", 5, -3)));
    sellIn, quality := items[0].sellIn, items[0].quality;
  }
}
