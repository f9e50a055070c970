/** The daily update rule as a specification: what one day does to one item,
    to a whole stock list, and to a stock list over many days. */
module Rules {
  import opened Items

  /** One capped increment: quality rises by one only while below the ceiling. */
  function Raise(q: int): int
  {
    if q < MaxQuality then q + 1 else q
  }

  /** One floored decrement: quality falls by one only while above zero. */
  function Lower(q: int): int
  {
    if q > 0 then q - 1 else q
  }

  /** Phase 1, before the day advances; reads the sellIn of the previous day.
      Generic quality falls by exactly one unless it is at or below 0; appreciating
      quality rises by exactly one unless it is at or above 50; an event ticket
      below 50 rises by 3, 2 or 1 (sellIn below 6, below 11, otherwise), capped
      at 50, and one at or above 50 is left alone. */
  function BeforeDay(c: Category, sellIn: int, q: int): (r: int)
    ensures c == Legendary ==> r == q
    ensures c == Generic ==> r <= q <= r + 1 && (r == q <==> q <= 0)
    ensures c == Appreciating ==> q <= r <= q + 1 && (r == q <==> q >= MaxQuality)
    ensures c == EventTicket && q >= MaxQuality ==> r == q
    ensures c == EventTicket && q < MaxQuality ==>
      var rise := if sellIn < 6 then 3 else if sellIn < 11 then 2 else 1;
      r == if q + rise > MaxQuality then MaxQuality else q + rise
  {
    match c
    case Legendary => q
    case Appreciating => Raise(q)
    case EventTicket =>
      var q1 := Raise(q);
      var q2 := if sellIn < 11 then Raise(q1) else q1;
      if sellIn < 6 then Raise(q2) else q2
    case Generic => Lower(q)
  }

  /** Phase 3, the correction applied once the new sellIn is negative: an event
      ticket becomes worthless, generic quality falls by one more unless at or
      below 0, appreciating quality rises by one more unless at or above 50. */
  function Expired(c: Category, q: int): (r: int)
    ensures c == Legendary ==> r == q
    ensures c == EventTicket ==> r == 0
    ensures c == Generic ==> r <= q <= r + 1 && (r == q <==> q <= 0)
    ensures c == Appreciating ==> q <= r <= q + 1 && (r == q <==> q >= MaxQuality)
  {
    match c
    case Legendary => q
    case Appreciating => Raise(q)
    case EventTicket => 0
    case Generic => Lower(q)
  }

  /** One day of one item of category `c`: the new (sellIn, quality). */
  function Step(c: Category, sellIn: int, quality: int): (r: (int, int))
    ensures c == Legendary ==> r == (sellIn, quality)
    ensures c != Legendary ==> r.0 == sellIn - 1
    ensures c == Generic ==> r.1 <= quality && (quality <= 0 ==> r.1 == quality)
    ensures c == Appreciating ==> r.1 >= quality && (quality >= MaxQuality ==> r.1 == quality)
    ensures c == EventTicket && sellIn <= 0 ==> r.1 == 0
    ensures c != Legendary && 0 <= quality <= MaxQuality ==> 0 <= r.1 <= MaxQuality
  {
    if c == Legendary then (sellIn, quality)
    else
      var s := sellIn - 1;
      var q := BeforeDay(c, sellIn, quality);
      (s, if s < 0 then Expired(c, q) else q)
  }

  /** One day of one item: its name picks the category, only the counters change. */
  function AgeItem(it: Item): (r: Item)
    ensures r.name == it.name
    ensures CategoryOf(it.name) == Legendary ==> r == it
    ensures CategoryOf(it.name) != Legendary ==> r.sellIn == it.sellIn - 1
  {
    var (s, q) := Step(CategoryOf(it.name), it.sellIn, it.quality);
    it.(sellIn := s, quality := q)
  }

  /** One day of a whole stock list: every slot aged once, nothing reordered.
      The list keeps its length and every slot its name; a legendary slot is
      unchanged and every other slot's sellIn drops by exactly one. */
  function AdvanceDay(s: seq<Item>): (r: seq<Item>)
    ensures |r| == |s|
    ensures forall k :: 0 <= k < |s| ==> r[k].name == s[k].name
    ensures forall k :: 0 <= k < |s| && CategoryOf(s[k].name) == Legendary ==> r[k] == s[k]
    ensures forall k :: 0 <= k < |s| && CategoryOf(s[k].name) != Legendary ==> r[k].sellIn == s[k].sellIn - 1
  {
    seq(|s|, k requires 0 <= k < |s| => AgeItem(s[k]))
  }

  /** `days` consecutive days of a stock list. */
  function AdvanceDays(s: seq<Item>, days: nat): (r: seq<Item>)
    ensures |r| == |s|
    ensures forall k :: 0 <= k < |s| ==> r[k].name == s[k].name
    decreases days
  {
    if days == 0 then s else AdvanceDays(AdvanceDay(s), days - 1)
  }

  /** The quality bound the rule keeps: every non-legendary item lies in [0, 50]. */
  ghost predicate QualityInRange(s: seq<Item>)
  {
    forall k :: 0 <= k < |s| && CategoryOf(s[k].name) != Legendary ==> 0 <= s[k].quality <= MaxQuality
  }

  // ---------------------------------------------------------------------------
  // One day of one item, category by category, against closed forms.
  // ---------------------------------------------------------------------------

  /** Generic: lose one while positive, one more once expired, never below zero. */
  lemma GenericQuality(sellIn: int, quality: int)
    ensures Step(Generic, sellIn, quality).1 ==
      if quality <= 0 then quality
      else if sellIn <= 0 then (if quality >= 2 then quality - 2 else 0)
      else quality - 1
  {
  }

  /** Appreciating: gain one below the ceiling, one more once expired, never past 50. */
  lemma AppreciatingQuality(sellIn: int, quality: int)
    ensures Step(Appreciating, sellIn, quality).1 ==
      if quality >= MaxQuality then quality
      else if sellIn <= 0 && quality < MaxQuality - 1 then quality + 2
      else quality + 1
  {
  }

  /** Event ticket: worthless once the event has passed; before that a rise of
      3, 2 or 1 by how close the event is (sellIn below 6, below 11, otherwise),
      capped at 50, and no change at all from a quality already at 50 or more. */
  lemma EventTicketQuality(sellIn: int, quality: int)
    ensures Step(EventTicket, sellIn, quality).1 ==
      if sellIn <= 0 then 0
      else if quality >= MaxQuality then quality
      else
        var rise := if sellIn < 6 then 3 else if sellIn < 11 then 2 else 1;
        if quality + rise > MaxQuality then MaxQuality else quality + rise
  {
  }

  /** The scenarios the test suites pin down, as (sellIn, quality) before and after. */
  lemma PinnedScenarios()
    ensures Step(Generic, 5, 10) == (4, 9)
    ensures Step(Generic, -5, 40) == (-6, 38)
    ensures Step(Generic, -1, 5) == (-2, 3)
    ensures Step(Generic, 0, 0) == (-1, 0)
    ensures Step(Generic, 1, 3) == (0, 2)
    ensures Step(Generic, -1, 0) == (-2, 0)
    ensures Step(Appreciating, 5, 10) == (4, 11)
    ensures Step(Appreciating, 0, 0) == (-1, 2)
    ensures Step(Appreciating, -10, 0) == (-11, 2)
    ensures Step(Appreciating, 5, 51) == (4, 51)
    ensures Step(Appreciating, 1, 50) == (0, 50)
    ensures Step(Appreciating, 2, 0) == (1, 1)
    ensures Step(EventTicket, 5, 60) == (4, 60)
    ensures Step(EventTicket, -5, 40) == (-6, 0)
    ensures Step(EventTicket, 0, 0) == (-1, 0)
    ensures Step(EventTicket, 10, 40) == (9, 42)
    ensures Step(EventTicket, 5, 40) == (4, 43)
    ensures Step(EventTicket, 10, 60) == (9, 60)
    ensures Step(EventTicket, -10, 20) == (-11, 0)
    ensures Step(EventTicket, 15, 20).1 == 21
    ensures Step(EventTicket, 10, 20).1 == 22
    ensures Step(EventTicket, 5, 20).1 == 23
    ensures Step(EventTicket, 0, 20).1 == 0
    ensures Step(Legendary, -2, 20) == (-2, 20)
    ensures Step(Legendary, 1, 80) == (1, 80)
  {
  }

  // ---------------------------------------------------------------------------
  // One day of a stock list.
  // ---------------------------------------------------------------------------

  /** A day keeps every non-legendary quality inside [0, 50]. */
  lemma AdvanceDayKeepsRange(s: seq<Item>)
    requires QualityInRange(s)
    ensures QualityInRange(AdvanceDay(s))
  {
  }

  // ---------------------------------------------------------------------------
  // Many days: the bounds hold after every single day, not only the first.
  // ---------------------------------------------------------------------------

  /** Non-legendary qualities that start in [0, 50] stay there for any number of days. */
  lemma {:induction false} QualityStaysInRange(s: seq<Item>, days: nat)
    requires QualityInRange(s)
    ensures QualityInRange(AdvanceDays(s, days))
    decreases days
  {
    if days > 0 {
      AdvanceDayKeepsRange(s);
      QualityStaysInRange(AdvanceDay(s), days - 1);
    }
  }

  /** A legendary item never changes, however many days pass. */
  lemma {:induction false} LegendaryNeverChanges(s: seq<Item>, days: nat, k: nat)
    requires k < |s| && CategoryOf(s[k].name) == Legendary
    ensures AdvanceDays(s, days)[k] == s[k]
    decreases days
  {
    if days > 0 {
      assert AdvanceDay(s)[k] == AgeItem(s[k]) == s[k];
      LegendaryNeverChanges(AdvanceDay(s), days - 1, k);
    }
  }

  /** Every non-legendary sellIn counts down by exactly one per day. */
  lemma {:induction false} SellInCountsDown(s: seq<Item>, days: nat, k: nat)
    requires k < |s| && CategoryOf(s[k].name) != Legendary
    ensures AdvanceDays(s, days)[k].sellIn == s[k].sellIn - days
    decreases days
  {
    if days > 0 {
      assert AdvanceDay(s)[k] == AgeItem(s[k]);
      SellInCountsDown(AdvanceDay(s), days - 1, k);
    }
  }

  /** An appreciating item never loses quality, however many days pass. */
  lemma {:induction false} AppreciatingNeverLoses(s: seq<Item>, days: nat, k: nat)
    requires k < |s| && CategoryOf(s[k].name) == Appreciating
    ensures AdvanceDays(s, days)[k].quality >= s[k].quality
    decreases days
  {
    if days > 0 {
      assert AdvanceDay(s)[k] == AgeItem(s[k]);
      AppreciatingNeverLoses(AdvanceDay(s), days - 1, k);
    }
  }

  /** A generic item never gains quality, however many days pass. */
  lemma {:induction false} GenericNeverGains(s: seq<Item>, days: nat, k: nat)
    requires k < |s| && CategoryOf(s[k].name) == Generic
    ensures AdvanceDays(s, days)[k].quality <= s[k].quality
    decreases days
  {
    if days > 0 {
      assert AdvanceDay(s)[k] == AgeItem(s[k]);
      GenericNeverGains(AdvanceDay(s), days - 1, k);
    }
  }

  /** Once its event has passed, an event ticket is worth 0 after every later day. */
  lemma {:induction false} TicketStaysWorthless(s: seq<Item>, days: nat, k: nat)
    requires k < |s| && CategoryOf(s[k].name) == EventTicket && s[k].sellIn <= 0
    requires days >= 1
    ensures AdvanceDays(s, days)[k].quality == 0
    decreases days
  {
    var next := AdvanceDay(s);
    assert next[k] == AgeItem(s[k]);
    if days > 1 {
      TicketStaysWorthless(next, days - 1, k);
    }
  }
}
