/**
  Shared vocabulary of the order pages: an order's items with their two
  independent flags, calendar days, and the order rows that the listing
  endpoints return.
 */
module Orders {
  import opened Seqs

  /** One rented item of an order; dispatch and return are independent flags. */
  datatype Item = Item(itemName: string, isDispatched: bool, isReturned: bool)

  /** A calendar day (month 1..12, day of month 1..31); time zones are not modelled. */
  datatype Day = Day(year: int, month: int, dayOfMonth: int) {
    predicate Valid() {
      1 <= month <= 12 && 1 <= dayOfMonth <= 31
    }

    /** An integer that orders valid days chronologically; it stands for the timestamp `new Date(text)` yields. */
    function Key(): int {
      (year * 12 + (month - 1)) * 31 + (dayOfMonth - 1)
    }
  }

  /** Lexicographic order on (year, month, day of month). */
  predicate Before(a: Day, b: Day) {
    a.year < b.year
    || (a.year == b.year && a.month < b.month)
    || (a.year == b.year && a.month == b.month && a.dayOfMonth < b.dayOfMonth)
  }

  lemma MonthSpan(a: Day, b: Day)
    requires a.Valid() && b.Valid()
    requires a.year < b.year
    ensures a.Key() < b.Key()
  {
    assert a.year * 12 + (a.month - 1) < b.year * 12 + (b.month - 1) by {
      assert a.year * 12 + 12 <= b.year * 12;
    }
  }

  /** The key order is the calendar order: `Key` is faithful for valid days. */
  lemma KeyOrdersDays(a: Day, b: Day)
    requires a.Valid() && b.Valid()
    ensures a.Key() < b.Key() <==> Before(a, b)
    ensures a.Key() == b.Key() <==> a == b
  {
    var ma := a.year * 12 + (a.month - 1);
    var mb := b.year * 12 + (b.month - 1);
    if a.year < b.year {
      MonthSpan(a, b);
    } else if b.year < a.year {
      MonthSpan(b, a);
    } else if a.month != b.month {
      assert ma < mb <==> a.month < b.month;
      assert ma + 1 <= mb || mb + 1 <= ma;
      assert ma * 31 + 31 <= mb * 31 || mb * 31 + 31 <= ma * 31;
    }
  }

  /** Every item has been dispatched (`items.every(item => item.isDispatched)`). */
  predicate AllDispatched(items: seq<Item>) {
    forall i :: 0 <= i < |items| ==> items[i].isDispatched
  }

  /** Some item still waits for dispatch (`items.some(item => !item.isDispatched)`). */
  predicate SomeUndispatched(items: seq<Item>) {
    exists i :: 0 <= i < |items| && !items[i].isDispatched
  }

  /**
    An order row as the listing endpoints return it. Amounts are in cents.
    `allItemsDispatched` and `allItemsReturned` are flags computed by the
    server; `itemNames` is absent until a page decorates the row.
   */
  datatype Order = Order(
    orderId: string,
    customerName: string,
    itemNames: Option<string>,
    items: seq<Item>,
    orderedDate: Day,
    weddingDate: Day,
    courierDate: Day,
    returnDate: Day,
    itemPrice: int,
    courierCharge: int,
    paidAmount: int,
    allItemsDispatched: bool,
    allItemsReturned: bool)

  /** `formatDate` of the list pages: a missing or empty date shows as "", any other text as itself. */
  function FormatDateCell(d: Option<string>): (r: string)
    ensures r == "" <==> d == None || d == Some("")
    ensures d.Some? ==> r == d.value
  {
    if d.None? || d.value == "" then "" else d.value
  }
}
