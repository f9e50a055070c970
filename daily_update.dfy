/** The per-item update as the shop code runs it, the `recalcAll` clamp pass,
    and their specifications. Every copy of the shop runs this same item body. */
module DailyUpdate {
  import opened Items
  import opened Rules

  /** The body of the shop loop for one item, as a sequence of writes to the
      item's counters driven by exact name comparisons. `conjuredLine` adds the
      statement the C# and Python copies place after the generic decrement
      (C# `Quality = Quality--`, Python save / decrement / restore): the quality
      is read, decremented, and the value read is stored back. */
  method AgeOne(it: Item, conjuredLine: bool) returns (r: Item)
    ensures r == AgeItem(it)
  {
    r := it;
    if r.name != AgedBrie && r.name != BackstagePasses {
      if r.quality > 0 {
        if r.name != Sulfuras {
          r := r.(quality := r.quality - 1);
        }
      }
      if conjuredLine && r.name != ConjuredMamaCakes {
        var original := r.quality;
        r := r.(quality := r.quality - 1);
        r := r.(quality := original);
      }
    } else {
      if r.quality < 50 {
        r := r.(quality := r.quality + 1);
        if r.name == BackstagePasses {
          if r.sellIn < 11 {
            if r.quality < 50 {
              r := r.(quality := r.quality + 1);
            }
          }
          if r.sellIn < 6 {
            if r.quality < 50 {
              r := r.(quality := r.quality + 1);
            }
          }
        }
      }
    }
    if r.name != Sulfuras {
      r := r.(sellIn := r.sellIn - 1);
    }
    if r.sellIn < 0 {
      if r.name != AgedBrie {
        if r.name != BackstagePasses {
          if r.quality > 0 {
            if r.name != Sulfuras {
              r := r.(quality := r.quality - 1);
            }
          }
        } else {
          r := r.(quality := r.quality - r.quality);
        }
      } else {
        if r.quality < 50 {
          r := r.(quality := r.quality + 1);
        }
      }
    }
  }

  /** The threshold of `recalcAll`: a negative quality becomes 0. */
  function Clamp(it: Item): (r: Item)
    ensures r.name == it.name && r.sellIn == it.sellIn
    ensures r.quality >= 0
    ensures it.quality >= 0 ==> r == it
    ensures it.quality < 0 ==> r.quality == 0
  {
    if it.quality < 0 then it.(quality := 0) else it
  }

  /** `recalcAll` over a whole stock list: afterwards every item, legendary ones
      included, has quality at least 0; length, order, names and sellIn are kept,
      and an item whose quality was already at least 0 is unchanged. */
  function ClampAll(s: seq<Item>): (r: seq<Item>)
    ensures |r| == |s|
    ensures forall k :: 0 <= k < |s| ==> r[k].name == s[k].name && r[k].sellIn == s[k].sellIn
    ensures forall k :: 0 <= k < |s| ==> r[k].quality >= 0
    ensures forall k :: 0 <= k < |s| && s[k].quality >= 0 ==> r[k] == s[k]
  {
    seq(|s|, k requires 0 <= k < |s| => Clamp(s[k]))
  }

  /** The `recalcAll` pass, in place over the stock array. */
  method RecalcAll(items: array<Item>)
    modifies items
    ensures items[..] == ClampAll(old(items[..]))
  {
    for i := 0 to items.Length
      invariant forall k :: 0 <= k < i ==> items[k] == Clamp(old(items[k]))
      invariant forall k :: i <= k < items.Length ==> items[k] == old(items[k])
    {
      var q := items[i].quality;
      if q < 0 {
        q := -0;
      }
      items[i] := items[i].(quality := q);
    }
  }

  /** The clamp is observable only on a negative quality: on a list whose
      qualities are all at least 0 it changes nothing. */
  lemma ClampAllIdentity(s: seq<Item>)
    requires forall k :: 0 <= k < |s| ==> s[k].quality >= 0
    ensures ClampAll(s) == s
  {
  }

  /** A day followed by the clamp is the plain day on every list whose
      non-legendary qualities are in [0, 50] and whose legendary qualities are
      at least 0: the Java and C# copies that always clamp then agree with the
      copies that never do. */
  lemma ClampAfterDayAgrees(s: seq<Item>)
    requires QualityInRange(s)
    requires forall k :: 0 <= k < |s| && CategoryOf(s[k].name) == Legendary ==> s[k].quality >= 0
    ensures ClampAll(AdvanceDay(s)) == AdvanceDay(s)
  {
  }

  /** A legendary item with quality at least 0 survives a day and the clamp unchanged. */
  lemma ClampedDayKeepsLegendary(s: seq<Item>, k: nat)
    requires k < |s| && CategoryOf(s[k].name) == Legendary && s[k].quality >= 0
    ensures ClampAll(AdvanceDay(s))[k] == s[k]
  {
  }
}
