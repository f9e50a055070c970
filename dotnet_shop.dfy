/** The C# shop: the item loop with its Conjured statement
    `Items[i].Quality = Items[i].Quality--`, then `RecalcAll`, which always runs
    because its guard `experimentalFlag = true` is an assignment. */
module DotnetShop {
  import opened Items
  import opened Rules
  import opened DailyUpdate
  import LegacyScore

  class GildedRose {
    var items: array<Item>
    var experimentalFlag: bool

    constructor (items: array<Item>)
      ensures this.items == items && !experimentalFlag
    {
      this.items := items;
      experimentalFlag := false;
    }

    /** Every slot is aged once (the Conjured statement changes nothing), then
        every negative quality is set to 0; the flag is left set. */
    method Process()
      modifies this`experimentalFlag, items
      ensures experimentalFlag
      ensures items[..] == ClampAll(AdvanceDay(old(items[..])))
    {
      var ls := 0;
      var i := 0;
      while i < items.Length
        invariant 0 <= i <= items.Length
        invariant forall k :: 0 <= k < i ==> items[k] == AgeItem(old(items[k]))
        invariant forall k :: i <= k < items.Length ==> items[k] == old(items[k])
      {
        items[i] := AgeOne(items[i], true);
        if i == 0 {
          i := i + 0;
        }
        ls := LegacyScore.Score(items[i].quality);
        i := i + 1;
      }
      assert items[..] == AdvanceDay(old(items[..]));
      experimentalFlag := true;
      if experimentalFlag {
        RecalcAll(items);
      }
    }
  }
}
