/** The receipts of the calculatePoints test table in main_test.go and the
    scores it expects, each derived from the model's rules. */
module ScoreExamples {
  import opened Wrappers
  import opened Text
  import opened Calendar
  import opened Points

  // ---------------------------------------------------------------------------
  // Evaluation helpers
  // ---------------------------------------------------------------------------

  /** The bonus sum of a one-item list: the item's bonus, which for a trimmed
      description depends on its own length. */
  lemma LoneBonus(item: Item, bonus: nat)
    requires Trimmed(item.shortDescription)
    requires bonus == if |item.shortDescription| % 3 == 0 then PriceBonus(item.priceCents) else 0
    ensures DescriptionPoints([item]) == bonus
  {
    TrimSpaceOfTrimmed(item.shortDescription);
    assert [item][..0] == [];
  }

  /** The item points of a list whose bonus sum is known. */
  lemma ItemPointsOf(items: seq<Item>, pairs: nat, bonus: nat)
    requires |items| / 2 == pairs && DescriptionPoints(items) == bonus
    ensures ItemPoints(items) == 5 * pairs + bonus
  {
  }

  /** The bonus sum of a four-item list, item by item. */
  lemma FourBonuses(w: Item, x: Item, y: Item, z: Item)
    ensures DescriptionPoints([w, x, y, z])
         == DescriptionPoints([w]) + DescriptionPoints([x]) + DescriptionPoints([y]) + DescriptionPoints([z])
  {
    assert [w, x, y, z] == [w, x, y] + [z];
    assert [w, x, y] == [w, x] + [y];
    assert [w, x] == [w] + [x];
    DescriptionPointsConcat([w, x, y], [z]);
    DescriptionPointsConcat([w, x], [y]);
    DescriptionPointsConcat([w], [x]);
  }

  /** "TestRetailer", the retailer of most rows of the table: 12 letters. */
  lemma TestRetailerCount()
    ensures AlnumCount(Ascii("TestRetailer")) == 12
  {
    AlnumCountAll(Ascii("TestRetailer"));
  }

  /** The score from its parts: the retailer count, the item points and the
      calendar points, with the two total rules. */
  lemma ScoreIs(r: Receipt, retailer: nat, items: nat, calendar: nat, score: nat)
    requires AlnumCount(r.retailer) == retailer
    requires ItemPoints(r.items) == items
    requires CalendarPoints(r.purchaseDate, r.purchaseTime) == calendar
    requires score == retailer + RoundDollarPoints(r.totalCents) + QuarterPoints(r.totalCents) + items + calendar
    ensures Score(r) == score
  {
  }

  // ---------------------------------------------------------------------------
  // The table, row by row
  // ---------------------------------------------------------------------------

  const TargetItems: seq<Item> := [
    Item(Ascii("Mountain Dew 12PK"), 649),
    Item(Ascii("Emils Cheese Pizza"), 1225),
    Item(Ascii("Knorr Creamy Chicken"), 126),
    Item(Ascii("Doritos Nacho Cheese"), 335),
    Item(Ascii("Klarbrunn 12-PK 12 FL OZ"), 1200)
  ]

  /** Two pairs, and the 18- and 24-byte descriptions earn ceil(2.45) = 3 and
      ceil(2.4) = 3. */
  lemma TargetItemPoints()
    ensures ItemPoints(TargetItems) == 16
  {
    var t := TargetItems;
    LoneBonus(t[0], 0); LoneBonus(t[1], 3); LoneBonus(t[2], 0); LoneBonus(t[3], 0); LoneBonus(t[4], 3);
    FourBonuses(t[0], t[1], t[2], t[3]);
    assert t == [t[0], t[1], t[2], t[3]] + [t[4]];
    DescriptionPointsConcat([t[0], t[1], t[2], t[3]], [t[4]]);
    ItemPointsOf(t, 2, 6);
  }

  const Target: Receipt :=
    Receipt(Ascii("Target"), Ascii("2022-01-01"), Ascii("13:01"), TargetItems, 3535)

  /** The example receipt: 6 (retailer) + 16 (items) + 6 (odd day) = 28; 3535
      cents is no multiple of 25 and 13:01 is outside the window. */
  lemma ScoreTarget()
    ensures Score(Target) == 28
  {
    AlnumCountAll(Ascii("Target"));
    TargetItemPoints();
    assert CalendarPoints(Target.purchaseDate, Target.purchaseTime) == 6;
    ScoreIs(Target, 6, 16, 6, 28);
  }

  const RoundDollar: Receipt :=
    Receipt(Ascii("TestRetailer"), Ascii("2022-01-02"), Ascii("15:30"), [], 1000)

  /** A round-dollar total also earns the quarter rule: 50 + 25 + 10 + 12 = 97. */
  lemma ScoreRoundDollar()
    ensures Score(RoundDollar) == 97
  {
    TestRetailerCount();
    assert CalendarPoints(RoundDollar.purchaseDate, RoundDollar.purchaseTime) == 10;
    ScoreIs(RoundDollar, 12, 0, 10, 97);
  }

  const Quarter: Receipt :=
    Receipt(Ascii("TestRetailer"), Ascii("2022-01-02"), Ascii("10:00"), [], 75)

  /** 75 cents earns only the quarter rule; 10:00 is outside the window: 25 + 12 = 37. */
  lemma ScoreQuarter()
    ensures Score(Quarter) == 37
  {
    TestRetailerCount();
    assert CalendarPoints(Quarter.purchaseDate, Quarter.purchaseTime) == 0;
    ScoreIs(Quarter, 12, 0, 0, 37);
  }

  const OddDay: Receipt :=
    Receipt(Ascii("TestRetailer"), Ascii("2022-01-03"), Ascii("10:00"), [], 1234)

  /** An odd day: 6 + 12 = 18. */
  lemma ScoreOddDay()
    ensures Score(OddDay) == 18
  {
    TestRetailerCount();
    assert CalendarPoints(OddDay.purchaseDate, OddDay.purchaseTime) == 6;
    ScoreIs(OddDay, 12, 0, 6, 18);
  }

  /** A receipt from "TestRetailer" on 2022-01-02 at 3 PM. */
  function AtThree(items: seq<Item>, totalCents: nat): Receipt {
    Receipt(Ascii("TestRetailer"), Ascii("2022-01-02"), Ascii("15:00"), items, totalCents)
  }

  const Afternoon: Receipt := AtThree([], 1234)

  /** 3 PM lies in the window: 10 + 12 = 22 (the "No Items" row is the same receipt). */
  lemma ScoreAfternoon()
    ensures Score(Afternoon) == 22
  {
    TestRetailerCount();
    assert CalendarPoints(Afternoon.purchaseDate, Afternoon.purchaseTime) == 10;
    ScoreIs(Afternoon, 12, 0, 10, 22);
  }

  const EmptyRetailer: Receipt :=
    Receipt([], Ascii("2022-01-02"), Ascii("15:00"), [], 100)

  /** An empty retailer counts 0: 50 + 25 + 10 = 85. */
  lemma ScoreEmptyRetailer()
    ensures Score(EmptyRetailer) == 85
  {
    assert CalendarPoints(EmptyRetailer.purchaseDate, EmptyRetailer.purchaseTime) == 10;
    ScoreIs(EmptyRetailer, 0, 0, 10, 85);
  }

  const OneItem: Receipt := AtThree([Item(Ascii("Test Item"), 100)], 1234)

  /** One item whose description "Test Item" is 9 bytes: ceil(1.00 * 0.2) = 1 more, 23. */
  lemma ScoreOneItem()
    ensures Score(OneItem) == 23
  {
    TestRetailerCount();
    assert CalendarPoints(OneItem.purchaseDate, OneItem.purchaseTime) == 10;
    LoneBonus(OneItem.items[0], 1);
    ItemPointsOf(OneItem.items, 0, 1);
    ScoreIs(OneItem, 12, 1, 10, 23);
  }

  const SixItems: seq<Item> := [
    Item(Ascii("Item 1"), 100), Item(Ascii("Item 2"), 200), Item(Ascii("Item 3"), 300),
    Item(Ascii("Item 4"), 400), Item(Ascii("Item 5"), 500), Item(Ascii("Item 6"), 600)
  ]

  /** 15 for three pairs, and bonuses 1 + 1 + 1 + 1 + 1 + 2 = 7 for the six
      6-byte descriptions. */
  lemma SixItemPoints()
    ensures ItemPoints(SixItems) == 22
  {
    var t := SixItems;
    LoneBonus(t[0], 1); LoneBonus(t[1], 1); LoneBonus(t[2], 1);
    LoneBonus(t[3], 1); LoneBonus(t[4], 1); LoneBonus(t[5], 2);
    FourBonuses(t[0], t[1], t[2], t[3]);
    assert t == [t[0], t[1], t[2], t[3]] + [t[4], t[5]];
    assert [t[4], t[5]] == [t[4]] + [t[5]];
    DescriptionPointsConcat([t[4]], [t[5]]);
    DescriptionPointsConcat([t[0], t[1], t[2], t[3]], [t[4], t[5]]);
    ItemPointsOf(t, 3, 7);
  }

  const ManyItems: Receipt := AtThree(SixItems, 1234)

  /** Six items: 22 for the items, with 10 + 12, 44. */
  lemma ScoreManyItems()
    ensures Score(ManyItems) == 44
  {
    TestRetailerCount();
    assert CalendarPoints(ManyItems.purchaseDate, ManyItems.purchaseTime) == 10;
    SixItemPoints();
    ScoreIs(ManyItems, 12, 22, 10, 44);
  }

  const ThreeLetters: Receipt := AtThree([Item(Ascii("ABC"), 151)], 1234)

  /** "ABC" at 1.51: ceil(0.302) = 1, so 23. */
  lemma ScoreThreeLetters()
    ensures Score(ThreeLetters) == 23
  {
    TestRetailerCount();
    assert CalendarPoints(ThreeLetters.purchaseDate, ThreeLetters.purchaseTime) == 10;
    LoneBonus(ThreeLetters.items[0], 1);
    ItemPointsOf(ThreeLetters.items, 0, 1);
    ScoreIs(ThreeLetters, 12, 1, 10, 23);
  }

  const FourLetters: Receipt := AtThree([Item(Ascii("ABCD"), 100)], 1234)

  /** "ABCD" is not a multiple of 3 bytes: no bonus, 22. */
  lemma ScoreFourLetters()
    ensures Score(FourLetters) == 22
  {
    TestRetailerCount();
    assert CalendarPoints(FourLetters.purchaseDate, FourLetters.purchaseTime) == 10;
    LoneBonus(FourLetters.items[0], 0);
    ItemPointsOf(FourLetters.items, 0, 0);
    ScoreIs(FourLetters, 12, 0, 10, 22);
  }

  /** "Tárgét" in UTF-8: the two accented letters are two bytes each, all at
      least 0x80. */
  const Targetish: seq<byte> := [0x54, 0xc3, 0xa1, 0x72, 0x67, 0xc3, 0xa9, 0x74]

  /** Accented letters do not count: T, r, g and t make 4. */
  lemma AccentedRetailerCount()
    ensures AlnumCount(Targetish) == 4
  {
    var s := Targetish;
    assert s == s[..1] + s[1..3] + s[3..5] + s[5..7] + s[7..];
    AlnumCountConcat(s[..1] + s[1..3] + s[3..5] + s[5..7], s[7..]);
    AlnumCountConcat(s[..1] + s[1..3] + s[3..5], s[5..7]);
    AlnumCountConcat(s[..1] + s[1..3], s[3..5]);
    AlnumCountConcat(s[..1], s[1..3]);
    AlnumCountAll(s[..1]);
    AlnumCountNone(s[1..3]);
    AlnumCountAll(s[3..5]);
    AlnumCountNone(s[5..7]);
    AlnumCountAll(s[7..]);
  }

  const AccentedRetailer: Receipt := Receipt(Targetish, Ascii("2022-01-01"), Ascii("13:01"), [], 100)

  /** 4 + 50 + 25 + 6 = 85. */
  lemma ScoreAccentedRetailer()
    ensures Score(AccentedRetailer) == 85
  {
    AccentedRetailerCount();
    assert CalendarPoints(AccentedRetailer.purchaseDate, AccentedRetailer.purchaseTime) == 6;
    ScoreIs(AccentedRetailer, 4, 0, 6, 85);
  }

  const InvalidDate: Receipt :=
    Receipt(Ascii("TestRetailer"), Ascii("invalid-date"), Ascii("13:01"), [], 10)

  /** A date that does not parse forfeits both calendar rules, and scoring
      goes on: 12. */
  lemma ScoreInvalidDate()
    ensures Score(InvalidDate) == 12
  {
    TestRetailerCount();
    assert ParseDate(InvalidDate.purchaseDate) == None;
    ScoreIs(InvalidDate, 12, 0, 0, 12);
  }

  const InvalidTime: Receipt :=
    Receipt(Ascii("TestRetailer"), Ascii("2024-01-01"), Ascii("invalid-time"), [], 10)

  /** A time that does not parse forfeits only the window rule: 6 + 12 = 18. */
  lemma ScoreInvalidTime()
    ensures Score(InvalidTime) == 18
  {
    TestRetailerCount();
    assert ParseDate(InvalidTime.purchaseDate).Some?;
    assert ParseTime(InvalidTime.purchaseTime) == None;
    ScoreIs(InvalidTime, 12, 0, 6, 18);
  }

  /** "M&M Corner Market", spelled piece by piece. */
  const CornerMarketName: seq<byte> :=
    Ascii("M") + Ascii("&") + Ascii("M") + Ascii(" ") + Ascii("Corner") + Ascii(" ") + Ascii("Market")

  /** M, M, Corner and Market make 14; "&" and the spaces count nothing. */
  lemma CornerMarketCount()
    ensures AlnumCount(CornerMarketName) == 14
  {
    var (m, amp, space, corner, market) := (Ascii("M"), Ascii("&"), Ascii(" "), Ascii("Corner"), Ascii("Market"));
    AlnumCountConcat(m + amp + m + space + corner + space, market);
    AlnumCountConcat(m + amp + m + space + corner, space);
    AlnumCountConcat(m + amp + m + space, corner);
    AlnumCountConcat(m + amp + m, space);
    AlnumCountConcat(m + amp, m);
    AlnumCountConcat(m, amp);
    AlnumCountAll(m);
    AlnumCountNone(amp);
    AlnumCountNone(space);
    AlnumCountAll(corner);
    AlnumCountAll(market);
  }

  const Gatorade: Item := Item(Ascii("Gatorade"), 225)

  /** Two pairs; "Gatorade" is 8 bytes, so no bonus. */
  lemma GatoradeItemPoints()
    ensures ItemPoints([Gatorade, Gatorade, Gatorade, Gatorade]) == 10
  {
    LoneBonus(Gatorade, 0);
    FourBonuses(Gatorade, Gatorade, Gatorade, Gatorade);
    ItemPointsOf([Gatorade, Gatorade, Gatorade, Gatorade], 2, 0);
  }

  const CornerMarket: Receipt :=
    Receipt(CornerMarketName, Ascii("2022-03-20"), Ascii("14:33"),
            [Gatorade, Gatorade, Gatorade, Gatorade], 900)

  /** 14 (retailer) + 75 (900 cents) + 10 (items) + 10 (14:33), 109. */
  lemma ScoreCornerMarket()
    ensures Score(CornerMarket) == 109
  {
    CornerMarketCount();
    GatoradeItemPoints();
    assert CalendarPoints(CornerMarket.purchaseDate, CornerMarket.purchaseTime) == 10;
    ScoreIs(CornerMarket, 14, 10, 10, 109);
  }
}
