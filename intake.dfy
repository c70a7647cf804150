/** Receipt intake and the in-memory store of main.go: the normalisation of a
    decoded request body (processReceiptHandler) and the id-to-points map it
    fills and getPointsHandler reads. */
module Intake {
  import opened Wrappers
  import opened Text
  import opened Money
  import opened Points

  /** An item as decoded from the request: both fields still text. */
  datatype RawItem = RawItem(shortDescription: seq<byte>, price: seq<byte>)

  /** A receipt as decoded from the request: every field still text. */
  datatype RawReceipt = RawReceipt(
    retailer: seq<byte>,
    purchaseDate: seq<byte>,
    purchaseTime: seq<byte>,
    items: seq<RawItem>,
    total: seq<byte>)

  /** Why a decoded receipt is refused (a 400 response): an item price or the
      total that parseCents rejects. */
  datatype IntakeError = InvalidItemPrice(cause: AmountError) | InvalidTotalPrice(cause: AmountError)

  /** "total", the name parseCents reports for the total. */
  const TotalLabel: seq<byte> := [0x74, 0x6f, 0x74, 0x61, 0x6c]

  // ---------------------------------------------------------------------------
  // Normalisation, as functions
  // ---------------------------------------------------------------------------

  /** One item: the price goes to parseCents with the description as given,
      and the stored description is trimmed. */
  function ParseItem(raw: RawItem): Result<Item, AmountError> {
    match ParseCents(raw.shortDescription, raw.price)
    case Failure(e) => Failure(e)
    case Success(cents) => Success(Item(TrimSpace(raw.shortDescription), cents))
  }

  /** The items in order; the first price that does not parse stops the intake. */
  function ParseItems(raws: seq<RawItem>): (r: Result<seq<Item>, AmountError>)
    ensures r.Success? ==> |r.value| == |raws|
  {
    if raws == [] then Success([])
    else
      match ParseItems(raws[..|raws| - 1])
      case Failure(e) => Failure(e)
      case Success(items) =>
        match ParseItem(raws[|raws| - 1])
        case Failure(e) => Failure(e)
        case Success(item) => Success(items + [item])
  }

  /** The whole receipt: items first, then the total; retailer, date and time
      are trimmed and are never rejected here. */
  function Normalize(raw: RawReceipt): Result<Receipt, IntakeError> {
    match ParseItems(raw.items)
    case Failure(e) => Failure(InvalidItemPrice(e))
    case Success(items) =>
      match ParseCents(TotalLabel, raw.total)
      case Failure(e) => Failure(InvalidTotalPrice(e))
      case Success(total) =>
        Success(Receipt(TrimSpace(raw.retailer), TrimSpace(raw.purchaseDate), TrimSpace(raw.purchaseTime),
                        items, total))
  }

  /** Every price of the list parses. */
  predicate PricesParse(raws: seq<RawItem>) {
    forall i | 0 <= i < |raws| :: ParseCents(raws[i].shortDescription, raws[i].price).Success?
  }

  // ---------------------------------------------------------------------------
  // What normalisation promises
  // ---------------------------------------------------------------------------

  /** The items are accepted exactly when every price parses, and then item i
      is the i-th description trimmed with the i-th price in cents. */
  lemma {:induction false} ParseItemsSuccess(raws: seq<RawItem>)
    ensures ParseItems(raws).Success? <==> PricesParse(raws)
    ensures ParseItems(raws).Success? ==>
      forall i | 0 <= i < |raws| ::
        ParseItems(raws).value[i]
          == Item(TrimSpace(raws[i].shortDescription), ParseCents(raws[i].shortDescription, raws[i].price).value)
    decreases |raws|
  {
    if raws != [] {
      var front := raws[..|raws| - 1];
      ParseItemsSuccess(front);
      assert forall i | 0 <= i < |front| :: front[i] == raws[i];
    }
  }

  /** Conversely, items that each parse give the list of their results. */
  lemma {:induction false} ParseItemsOfEach(raws: seq<RawItem>, items: seq<Item>)
    requires |raws| == |items|
    requires forall i | 0 <= i < |raws| :: ParseItem(raws[i]) == Success(items[i])
    ensures ParseItems(raws) == Success(items)
    decreases |raws|
  {
    if raws != [] {
      var n := |raws| - 1;
      ParseItemsOfEach(raws[..n], items[..n]);
      assert items[..n] + [items[n]] == items;
    }
  }

  /** The first item whose price does not parse decides the error: its
      description names it, and nothing after it is looked at. */
  lemma {:induction false} ParseItemsFirstFailure(raws: seq<RawItem>, k: nat)
    requires k < |raws| && PricesParse(raws[..k])
    requires ParseCents(raws[k].shortDescription, raws[k].price).Failure?
    ensures ParseItems(raws) == Failure(ParseCents(raws[k].shortDescription, raws[k].price).error)
    ensures ParseItems(raws).error.description == raws[k].shortDescription
    decreases |raws|
  {
    var n := |raws| - 1;
    if k == n {
      assert raws[..n] == raws[..k];
      ParseItemsSuccess(raws[..n]);
    } else {
      assert raws[..n][..k] == raws[..k];
      ParseItemsFirstFailure(raws[..n], k);
    }
  }

  /** Intake succeeds exactly when every item price and the total parse; the
      receipt then keeps the items' order and count, and its text fields are
      trimmed. */
  lemma NormalizeSuccess(raw: RawReceipt)
    ensures Normalize(raw).Success?
        <==> PricesParse(raw.items) && ParseCents(TotalLabel, raw.total).Success?
    ensures Normalize(raw).Success? ==>
      var r := Normalize(raw).value;
      && r.retailer == TrimSpace(raw.retailer) && Trimmed(r.retailer)
      && r.purchaseDate == TrimSpace(raw.purchaseDate) && Trimmed(r.purchaseDate)
      && r.purchaseTime == TrimSpace(raw.purchaseTime) && Trimmed(r.purchaseTime)
      && |r.items| == |raw.items|
      && r.totalCents == ParseCents(TotalLabel, raw.total).value
  {
    ParseItemsSuccess(raw.items);
  }

  /** An item price that does not parse is reported before the total is
      looked at, whatever the total says. */
  lemma NormalizeItemsFirst(raw: RawReceipt, k: nat)
    requires k < |raw.items| && PricesParse(raw.items[..k])
    requires ParseCents(raw.items[k].shortDescription, raw.items[k].price).Failure?
    ensures Normalize(raw)
         == Failure(InvalidItemPrice(ParseCents(raw.items[k].shortDescription, raw.items[k].price).error))
  {
    ParseItemsFirstFailure(raw.items, k);
  }

  /** A total that does not parse, with every item price parsing, is reported
      under the name "total". */
  lemma NormalizeBadTotal(raw: RawReceipt)
    requires PricesParse(raw.items) && ParseCents(TotalLabel, raw.total).Failure?
    ensures Normalize(raw).Failure? && Normalize(raw).error.InvalidTotalPrice?
    ensures Normalize(raw).error.cause.description == TotalLabel
  {
    ParseItemsSuccess(raw.items);
  }

  /** The cents of an item price, 0 when it does not parse. */
  function PriceCents(raw: RawItem): nat {
    match ParseCents(raw.shortDescription, raw.price)
    case Success(cents) => cents
    case Failure(_) => 0
  }

  /** The items with their descriptions as sent. */
  function Untrimmed(raws: seq<RawItem>): seq<Item> {
    seq(|raws|, i requires 0 <= i < |raws| => Item(raws[i].shortDescription, PriceCents(raws[i])))
  }

  /** Trimming the descriptions at intake does not change the item points:
      the bonus rule trims them again. */
  lemma NormalizeItemPoints(raw: RawReceipt)
    requires Normalize(raw).Success?
    ensures ItemPoints(Normalize(raw).value.items) == ItemPoints(Untrimmed(raw.items))
  {
    var items := Normalize(raw).value.items;
    ParseItemsSuccess(raw.items);
    DescriptionPointsTrimmed(Untrimmed(raw.items), items);
  }

  // ---------------------------------------------------------------------------
  // processReceiptHandler's loop
  // ---------------------------------------------------------------------------

  /** Fills a slice of len(items) receipt items in order, returning at the
      first price that does not parse, then parses the total. */
  method BuildReceipt(raw: RawReceipt) returns (r: Result<Receipt, IntakeError>)
    ensures r == Normalize(raw)
  {
    var items := new Item[|raw.items|](_ => Item([], 0));
    for i := 0 to |raw.items|
      invariant ParseItems(raw.items[..i]).Success?
      invariant items[..i] == ParseItems(raw.items[..i]).value
    {
      var rawItem := raw.items[i];
      assert raw.items[..i + 1][..i] == raw.items[..i];
      var cents := ParseAmount(rawItem.shortDescription, rawItem.price);
      if cents.Failure? {
        assert ParseItems(raw.items[..i + 1]) == Failure(cents.error);
        PrefixFailure(raw.items, i + 1);
        assert Normalize(raw) == Failure(InvalidItemPrice(cents.error));
        return Failure(InvalidItemPrice(cents.error));
      }
      items[i] := Item(TrimSpace(rawItem.shortDescription), cents.value);
    }
    assert raw.items[..|raw.items|] == raw.items;
    assert items[..] == items[..|raw.items|];
    var total := ParseAmount(TotalLabel, raw.total);
    if total.Failure? {
      assert Normalize(raw) == Failure(InvalidTotalPrice(total.error));
      return Failure(InvalidTotalPrice(total.error));
    }
    r := Success(Receipt(TrimSpace(raw.retailer), TrimSpace(raw.purchaseDate), TrimSpace(raw.purchaseTime),
                         items[..], total.value));
  }

  /** A failure among the first k items is the failure of the whole list. */
  lemma {:induction false} PrefixFailure(raws: seq<RawItem>, k: nat)
    requires k <= |raws| && ParseItems(raws[..k]).Failure?
    ensures ParseItems(raws) == ParseItems(raws[..k])
    decreases |raws| - k
  {
    if k == |raws| {
      assert raws[..k] == raws;
    } else {
      assert raws[..k + 1][..k] == raws[..k];
      PrefixFailure(raws, k + 1);
    }
  }

  // ---------------------------------------------------------------------------
  // The store
  // ---------------------------------------------------------------------------

  /** inMemoryStore: receipt id to points. */
  class ReceiptStore {
    var points: map<string, int>

    /** An empty store. */
    constructor()
      ensures points == map[]
    {
      points := map[];
    }

    /** processReceiptHandler after decoding: a receipt that normalises is
        scored and stored under `id` (a fresh UUID in the service), which is
        returned; a refused one leaves the store as it was. */
    method ProcessReceipt(raw: RawReceipt, id: string) returns (r: Result<string, IntakeError>)
      modifies this
      ensures r.Success? <==> Normalize(raw).Success?
      ensures r.Failure? ==> r.error == Normalize(raw).error && points == old(points)
      ensures r.Success? ==> r.value == id && points == old(points)[id := Score(Normalize(raw).value)]
    {
      var receipt := BuildReceipt(raw);
      if receipt.Failure? {
        return Failure(receipt.error);
      }
      var score := CalculatePoints(receipt.value);
      points := points[id := score];
      return Success(id);
    }

    /** getPointsHandler: the stored points of `id`, or nothing (a 404). */
    method GetPoints(id: string) returns (r: Option<int>)
      ensures r.Some? <==> id in points
      ensures r.Some? ==> r.value == points[id]
    {
      if id in points {
        return Some(points[id]);
      }
      return None;
    }
  }
}
