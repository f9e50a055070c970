/** The Python shop: a manual-index `while` loop with the Conjured
    save / decrement / restore statement, then `_recalc_all` only when
    `experimental_flag == True`, which the constructor makes false. */
module PythonShop {
  import opened Items
  import opened Rules
  import opened DailyUpdate
  import LegacyScore

  class GildedRose {
    var items: array<Item>
    var experimentalFlag: bool

    constructor (items: array<Item>)
      ensures this.items == items && !experimentalFlag
    {
      this.items := items;
      experimentalFlag := false;
    }

    /** Every slot is aged once, the index advancing by exactly one per
        iteration; the clamp runs only if the flag has been set. */
    method Process()
      modifies items
      ensures items[..] == if experimentalFlag then ClampAll(AdvanceDay(old(items[..])))
                           else AdvanceDay(old(items[..]))
    {
      var ls := 0;
      var i := 0;
      while i < items.Length
        invariant 0 <= i <= items.Length
        invariant forall k :: 0 <= k < i ==> items[k] == AgeItem(old(items[k]))
        invariant forall k :: i <= k < items.Length ==> items[k] == old(items[k])
      {
        items[i] := AgeOne(items[i], true);
        if i == 0 {
          i := i + 0;
        }
        ls := LegacyScore.Score(items[i].quality);
        i := i + 1;
      }
      assert items[..] == AdvanceDay(old(items[..]));
      if experimentalFlag == true {
        RecalcAll(items);
      }
    }
  }

  /** A generic item with negative quality: a freshly constructed shop never
      reaches `_recalc_all`, so the quality stays -3 (sellIn 5 becomes 4). */
  method NegativeQualitySurvives() returns (sellIn: int, quality: int)
    ensures sellIn == 4 && quality == -3
  {
    var items := new Item[1](_ => Item("Paisley Pajama Pants", 5, -3));
    var shop := new GildedRose(items);
    shop.Process();
    assert items[..] == AdvanceDay([Item("Paisley Pajama Pants", 5, -3)]);
    assert items[0] == AgeItem(Item("Paisley Pajama Pants", 5, -3));
    sellIn, quality := items[0].sellIn, items[0].quality;
  }
}
