/** The points engine of main.go: `calculatePoints` and its helper
    `calculateItemPoints`, over a receipt whose prices are already in cents. */
module Points {
  import opened Wrappers
  import opened Text
  import opened Calendar

  /** Item: a line of the receipt, its price in cents. */
  datatype Item = Item(shortDescription: seq<byte>, priceCents: nat)

  /** Receipt: the purchase date and time are still text; they are parsed
      while scoring, and a text that does not parse only forfeits the rules
      that need it. */
  datatype Receipt = Receipt(
    retailer: seq<byte>,
    purchaseDate: seq<byte>,
    purchaseTime: seq<byte>,
    items: seq<Item>,
    totalCents: nat)

  // ---------------------------------------------------------------------------
  // The rules
  // ---------------------------------------------------------------------------

  /** 50 points for a round-dollar total. */
  function RoundDollarPoints(totalCents: nat): nat {
    if totalCents % 100 == 0 then 50 else 0
  }

  /** 25 points for a total that is a multiple of 0.25, tested on its own. */
  function QuarterPoints(totalCents: nat): nat {
    if totalCents % 25 == 0 then 25 else 0
  }

  /** 5 points for every two items. */
  function PairPoints(count: nat): nat {
    (count / 2) * 5
  }

  /** The price in dollars times 0.2, rounded up: the least whole number of
      points worth at least a fifth of the price. */
  function PriceBonus(priceCents: nat): (p: nat)
    ensures p * 500 >= priceCents
    ensures p == 0 || (p - 1) * 500 < priceCents
  {
    (priceCents + 499) / 500
  }

  /** An item whose trimmed description is a multiple of 3 bytes long (the
      empty description included) earns the price bonus. */
  predicate QualifiesForBonus(item: Item) {
    |TrimSpace(item.shortDescription)| % 3 == 0
  }

  function ItemBonus(item: Item): nat {
    if QualifiesForBonus(item) then PriceBonus(item.priceCents) else 0
  }

  /** The sum of the item bonuses. */
  function DescriptionPoints(items: seq<Item>): nat {
    if items == [] then 0 else DescriptionPoints(items[..|items| - 1]) + ItemBonus(items[|items| - 1])
  }

  /** What calculateItemPoints returns. */
  function ItemPoints(items: seq<Item>): nat {
    PairPoints(|items|) + DescriptionPoints(items)
  }

  /** The date rules: 6 points for an odd day of a date that parses and, only
      then, 10 more for a time that parses and lies strictly between 2 PM and
      4 PM. A text that does not parse contributes nothing. */
  function CalendarPoints(purchaseDate: seq<byte>, purchaseTime: seq<byte>): nat {
    match ParseDate(purchaseDate)
    case None => 0
    case Some(date) =>
      (if date.day % 2 != 0 then 6 else 0)
      + match ParseTime(purchaseTime)
        case Some(t) => if IsTimeBetween(t, TwoPM, FourPM) then 10 else 0
        case None => 0
  }

  /** The score: the sum of the seven rules. */
  function Score(r: Receipt): nat {
    AlnumCount(r.retailer)
    + RoundDollarPoints(r.totalCents)
    + QuarterPoints(r.totalCents)
    + ItemPoints(r.items)
    + CalendarPoints(r.purchaseDate, r.purchaseTime)
  }

  // ---------------------------------------------------------------------------
  // The source's procedures
  // ---------------------------------------------------------------------------

  /** calculateItemPoints: 5 per pair, then one pass adding each qualifying
      item's bonus. */
  method CalculateItemPoints(items: seq<Item>) returns (totalPoints: int)
    ensures totalPoints == ItemPoints(items)
  {
    totalPoints := 0;
    totalPoints := totalPoints + (|items| / 2) * 5;
    for i := 0 to |items|
      invariant totalPoints == PairPoints(|items|) + DescriptionPoints(items[..i])
    {
      assert items[..i + 1][..i] == items[..i];
      var trimmedLen := |TrimSpace(items[i].shortDescription)|;
      if trimmedLen % 3 == 0 {
        totalPoints := totalPoints + (items[i].priceCents + 499) / 500;
      }
    }
    assert items[..|items|] == items;
  }

  /** calculatePoints: a running total over the rules in the source's order. */
  method CalculatePoints(receipt: Receipt) returns (points: int)
    ensures points == Score(receipt)
    ensures points >= 0
  {
    points := 0;
    var alnum := CountAlphanumeric(receipt.retailer);
    points := points + alnum;
    if receipt.totalCents % 100 == 0 {
      points := points + 50;
    }
    if receipt.totalCents % 25 == 0 {
      points := points + 25;
    }
    var itemPoints := CalculateItemPoints(receipt.items);
    points := points + itemPoints;
    var purchaseDate := ParseDate(receipt.purchaseDate);
    if purchaseDate.Some? {
      if purchaseDate.value.day % 2 != 0 {
        points := points + 6;
      }
      var purchaseTime := ParseTime(receipt.purchaseTime);
      if purchaseTime.Some? && IsTimeBetween(purchaseTime.value, TwoPM, FourPM) {
        points := points + 10;
      }
    }
  }

  // ---------------------------------------------------------------------------
  // Properties of the rules
  // ---------------------------------------------------------------------------

  /** The two total rules fire independently: a multiple of 100 cents earns 75,
      a multiple of 25 that is not a round dollar earns 25, anything else 0. */
  lemma TotalRules(totalCents: nat)
    ensures RoundDollarPoints(totalCents) + QuarterPoints(totalCents)
         == if totalCents % 100 == 0 then 75 else if totalCents % 25 == 0 then 25 else 0
  {
    if totalCents % 100 == 0 {
      var k := totalCents / 100;
      assert totalCents == 25 * (4 * k);
    }
  }

  /** The bonus sum of a concatenation is the sum of the bonus sums. */
  lemma {:induction false} DescriptionPointsConcat(a: seq<Item>, b: seq<Item>)
    ensures DescriptionPoints(a + b) == DescriptionPoints(a) + DescriptionPoints(b)
    decreases |b|
  {
    if b == [] {
      assert a + b == a;
    } else {
      assert (a + b)[..|a + b| - 1] == a + b[..|b| - 1];
      DescriptionPointsConcat(a, b[..|b| - 1]);
    }
  }

  /** Taking one item out of the list takes its bonus out of the sum. */
  lemma DescriptionPointsRemove(p: seq<Item>, y: Item, q: seq<Item>)
    ensures DescriptionPoints(p + [y] + q) == DescriptionPoints(p + q) + ItemBonus(y)
  {
    DescriptionPointsConcat(p + [y], q);
    DescriptionPointsConcat(p, q);
    assert (p + [y])[..|p|] == p;
  }

  /** A sequence is what lies before index j, the element at j, and what
      lies after it. */
  lemma SplitAround<T>(b: seq<T>, j: nat)
    requires j < |b|
    ensures b == b[..j] + [b[j]] + b[j + 1..]
  {
  }

  /** The same, for the item at index j. */
  lemma DescriptionPointsRemoveAt(b: seq<Item>, j: nat)
    requires j < |b|
    ensures DescriptionPoints(b) == DescriptionPoints(b[..j] + b[j + 1..]) + ItemBonus(b[j])
  {
    SplitAround(b, j);
    DescriptionPointsRemove(b[..j], b[j], b[j + 1..]);
  }

  /** Taking one element out of a sequence takes it out of its multiset. */
  lemma MultisetRemove(b: seq<Item>, j: nat)
    requires j < |b|
    ensures multiset(b[..j] + b[j + 1..]) == multiset(b) - multiset{b[j]}
  {
    assert b == b[..j] + [b[j]] + b[j + 1..];
  }

  /** The bonus sum does not depend on the order of the items. */
  lemma {:induction false} DescriptionPointsPermutation(a: seq<Item>, b: seq<Item>)
    requires multiset(a) == multiset(b)
    ensures DescriptionPoints(a) == DescriptionPoints(b)
    decreases |a|
  {
    if a != [] {
      var n := |a| - 1;
      var x := a[n];
      assert x in multiset(b);
      var j :| 0 <= j < |b| && b[j] == x;
      assert a[..n] + a[n + 1..] == a[..n];
      MultisetRemove(a, n);
      MultisetRemove(b, j);
      DescriptionPointsPermutation(a[..n], b[..j] + b[j + 1..]);
      DescriptionPointsRemoveAt(b, j);
    } else {
      assert |b| == |multiset(b)| == 0;
    }
  }

  /** Item points do not depend on the order of the items. */
  lemma ItemPointsPermutation(a: seq<Item>, b: seq<Item>)
    requires multiset(a) == multiset(b)
    ensures ItemPoints(a) == ItemPoints(b)
  {
    DescriptionPointsPermutation(a, b);
    assert |a| == |multiset(a)| == |multiset(b)| == |b|;
  }

  /** Trimming the descriptions before scoring changes nothing, since the
      rule trims them again. */
  lemma {:induction false} DescriptionPointsTrimmed(items: seq<Item>, trimmed: seq<Item>)
    requires |trimmed| == |items|
    requires forall i | 0 <= i < |items| ::
      trimmed[i] == Item(TrimSpace(items[i].shortDescription), items[i].priceCents)
    ensures DescriptionPoints(trimmed) == DescriptionPoints(items)
    decreases |items|
  {
    if items != [] {
      var n := |items| - 1;
      var (t, u) := (trimmed[..n], items[..n]);
      forall i | 0 <= i < n
        ensures t[i] == Item(TrimSpace(u[i].shortDescription), u[i].priceCents)
      {
        assert t[i] == trimmed[i] && u[i] == items[i];
      }
      DescriptionPointsTrimmed(u, t);
      TrimSpaceIdempotent(items[n].shortDescription);
      assert ItemBonus(trimmed[n]) == ItemBonus(items[n]);
    }
  }

  /** The calendar rules: 6 exactly for an odd day of a parsed date, 10
      exactly when the date and the time both parse and the time lies strictly
      inside the 2 PM to 4 PM window; nothing at all without a parsed date. */
  lemma CalendarRules(purchaseDate: seq<byte>, purchaseTime: seq<byte>)
    ensures var p := CalendarPoints(purchaseDate, purchaseTime);
      && (p == 0 || p == 6 || p == 10 || p == 16)
      && (p % 10 == 6 <==> ParseDate(purchaseDate).Some? && ParseDate(purchaseDate).value.day % 2 == 1)
      && (p >= 10 <==> ParseDate(purchaseDate).Some? && ParseTime(purchaseTime).Some?
                       && TwoPM < ParseTime(purchaseTime).value < FourPM)
      && (ParseDate(purchaseDate).None? ==> p == 0)
  {
  }

  /** A receipt whose date does not parse scores exactly the first five rules. */
  lemma ScoreWithoutDate(r: Receipt)
    requires ParseDate(r.purchaseDate).None?
    ensures Score(r) == AlnumCount(r.retailer) + RoundDollarPoints(r.totalCents)
                        + QuarterPoints(r.totalCents) + ItemPoints(r.items)
  {
  }

  /** The score does not depend on the order of the items. */
  lemma ScorePermutation(r: Receipt, items: seq<Item>)
    requires multiset(items) == multiset(r.items)
    ensures Score(r.(items := items)) == Score(r)
  {
    ItemPointsPermutation(items, r.items);
  }
}
