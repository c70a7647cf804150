/** The two handler tests of main_test.go, through the store: the example
    receipt is accepted and scores 28, and an unknown id is not found. */
module IntakeExamples {
  import opened Wrappers
  import opened Text
  import opened Money
  import opened Points
  import opened Intake
  import opened ScoreExamples

  const RawTargetItems: seq<RawItem> := [
    RawItem(Ascii("Mountain Dew 12PK"), Ascii("6.49")),
    RawItem(Ascii("Emils Cheese Pizza"), Ascii("12.25")),
    RawItem(Ascii("Knorr Creamy Chicken"), Ascii("1.26")),
    RawItem(Ascii("Doritos Nacho Cheese"), Ascii("3.35")),
    RawItem(Ascii("Klarbrunn 12-PK 12 FL OZ"), Ascii("12.00"))
  ]

  /** The request body of the example receipt, as decoded. */
  const RawTarget: RawReceipt :=
    RawReceipt(Ascii("Target"), Ascii("2022-01-01"), Ascii("13:01"), RawTargetItems, Ascii("35.35"))

  /** An item with a trimmed description and a price that parses. */
  lemma ItemIs(raw: RawItem, cents: nat)
    requires Trimmed(raw.shortDescription)
    requires ParseCents(raw.shortDescription, raw.price) == Success(cents)
    ensures ParseItem(raw) == Success(Item(raw.shortDescription, cents))
  {
    TrimSpaceOfTrimmed(raw.shortDescription);
  }

  /** Item 0 of the example: "6.49" is 649 cents. */
  lemma MountainDew()
    ensures ParseItem(RawTargetItems[0]) == Success(TargetItems[0])
  {
    var raw := RawTargetItems[0];
    assert raw.price == Ascii("6") + [Dot] + Ascii("49");
    ParseCentsDollarsCents(raw.shortDescription, Ascii("6"), Ascii("49"));
    ItemIs(raw, 649);
  }

  /** Item 1 of the example: "12.25" is 1225 cents. */
  lemma EmilsPizza()
    ensures ParseItem(RawTargetItems[1]) == Success(TargetItems[1])
  {
    var raw := RawTargetItems[1];
    assert raw.price == Ascii("12") + [Dot] + Ascii("25");
    ParseCentsDollarsCents(raw.shortDescription, Ascii("12"), Ascii("25"));
    ItemIs(raw, 1225);
  }

  /** Item 2 of the example: "1.26" is 126 cents. */
  lemma KnorrChicken()
    ensures ParseItem(RawTargetItems[2]) == Success(TargetItems[2])
  {
    var raw := RawTargetItems[2];
    assert raw.price == Ascii("1") + [Dot] + Ascii("26");
    ParseCentsDollarsCents(raw.shortDescription, Ascii("1"), Ascii("26"));
    ItemIs(raw, 126);
  }

  /** Item 3 of the example: "3.35" is 335 cents. */
  lemma Doritos()
    ensures ParseItem(RawTargetItems[3]) == Success(TargetItems[3])
  {
    var raw := RawTargetItems[3];
    assert raw.price == Ascii("3") + [Dot] + Ascii("35");
    ParseCentsDollarsCents(raw.shortDescription, Ascii("3"), Ascii("35"));
    ItemIs(raw, 335);
  }

  /** Item 4 of the example: "12.00" is 1200 cents. */
  lemma Klarbrunn()
    ensures ParseItem(RawTargetItems[4]) == Success(TargetItems[4])
  {
    var raw := RawTargetItems[4];
    assert raw.price == Ascii("12") + [Dot] + Ascii("00");
    ParseCentsDollarsCents(raw.shortDescription, Ascii("12"), Ascii("00"));
    ItemIs(raw, 1200);
  }

  /** All five items parse, in order. */
  lemma TargetItemsParse()
    ensures ParseItems(RawTargetItems) == Success(TargetItems)
  {
    forall k | 0 <= k < 5
      ensures ParseItem(RawTargetItems[k]) == Success(TargetItems[k])
    {
      if k == 0 { MountainDew(); }
      else if k == 1 { EmilsPizza(); }
      else if k == 2 { KnorrChicken(); }
      else if k == 3 { Doritos(); }
      else { Klarbrunn(); }
    }
    ParseItemsOfEach(RawTargetItems, TargetItems);
  }

  /** The total "35.35" is 3535 cents. */
  lemma TargetTotal()
    ensures ParseCents(TotalLabel, Ascii("35.35")) == Success(3535)
  {
    assert Ascii("35.35") == Ascii("35") + [Dot] + Ascii("35");
    ParseCentsDollarsCents(TotalLabel, Ascii("35"), Ascii("35"));
  }

  /** Retailer, date and time carry no white space to trim. */
  lemma TargetHeader()
    ensures TrimSpace(RawTarget.retailer) == Target.retailer
    ensures TrimSpace(RawTarget.purchaseDate) == Target.purchaseDate
    ensures TrimSpace(RawTarget.purchaseTime) == Target.purchaseTime
  {
    TrimSpaceOfTrimmed(Ascii("Target"));
    TrimSpaceOfTrimmed(Ascii("2022-01-01"));
    TrimSpaceOfTrimmed(Ascii("13:01"));
  }

  /** A receipt whose items and total are known to parse. */
  lemma NormalizeOf(raw: RawReceipt, items: seq<Item>, total: nat)
    requires ParseItems(raw.items) == Success(items)
    requires ParseCents(TotalLabel, raw.total) == Success(total)
    ensures Normalize(raw)
         == Success(Receipt(TrimSpace(raw.retailer), TrimSpace(raw.purchaseDate), TrimSpace(raw.purchaseTime),
                            items, total))
  {
  }

  /** Intake turns the example body into the receipt that scores 28. */
  lemma NormalizeTarget()
    ensures Normalize(RawTarget) == Success(Target)
  {
    TargetItemsParse();
    TargetTotal();
    TargetHeader();
    NormalizeOf(RawTarget, TargetItems, 3535);
  }

  /** The example receipt posted under an id, then that id looked up: 28. */
  method ProcessThenGetTarget(id: string) returns (points: Option<int>)
    ensures points == Some(28)
  {
    var store := new ReceiptStore();
    NormalizeTarget();
    ScoreTarget();
    var r := store.ProcessReceipt(RawTarget, id);
    points := store.GetPoints(id);
  }

  /** An id nothing was stored under is not found. */
  method GetUnknown() returns (points: Option<int>)
    ensures points == None
  {
    var store := new ReceiptStore();
    points := store.GetPoints("nonexistent-id");
  }
}
