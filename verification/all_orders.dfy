/**
  The "All Orders" page: the rows of `GET /allOrders` minus the settled
  ones, sorted by a chosen date, with a status cell for payment and one
  for returns.
 */
module AllOrders {
  import opened Seqs
  import opened Orders
  import opened StableSort

  /** An order still needing attention: not fully paid, or not all returned, or not all dispatched. */
  predicate Unsettled(o: Order)
  {
    o.paidAmount < o.itemPrice || !o.allItemsReturned || !o.allItemsDispatched
  }

  /** The filter applied to the fetched rows: settled orders are dropped, nothing is added or reordered. */
  function RemainingOrders(rows: seq<Order>): (r: seq<Order>)
    ensures forall o :: o in r <==> o in rows && (o.paidAmount < o.itemPrice || !o.allItemsReturned || !o.allItemsDispatched)
    ensures forall o :: multiset(r)[o] == if Unsettled(o) then multiset(rows)[o] else 0
    ensures SubseqOf(r, rows)
  {
    Filter(rows, Unsettled)
  }

  /** The sort options of the page. */
  datatype SortCriterion = WeddingDate | CourierDate | ReturnDate

  function DateUnder(o: Order, c: SortCriterion): Day
  {
    match c
    case WeddingDate => o.weddingDate
    case CourierDate => o.courierDate
    case ReturnDate => o.returnDate
  }

  /** The comparator `new Date(a[c]) - new Date(b[c])` compares these keys. */
  function SortKey(c: SortCriterion): Order -> int
  {
    o => DateUnder(o, c).Key()
  }

  /** `sortOrders` with criterion `c`: ascending by that date, a permutation of the input. */
  function SortOrders(orders: seq<Order>, c: SortCriterion): (r: seq<Order>)
    ensures forall i, j :: 0 <= i < j < |r| ==> DateUnder(r[i], c).Key() <= DateUnder(r[j], c).Key()
    ensures multiset(r) == multiset(orders)
    ensures |r| == |orders|
  {
    Sort(orders, SortKey(c))
  }

  /**
    With valid dates, the key order is the calendar order: no listed order
    has its chosen date on a day before that of an order listed above it.
   */
  lemma SortOrdersChronological(orders: seq<Order>, c: SortCriterion)
    requires forall i :: 0 <= i < |orders| ==> DateUnder(orders[i], c).Valid()
    ensures var r := SortOrders(orders, c);
            forall i, j :: 0 <= i < j < |r| ==> !Before(DateUnder(r[j], c), DateUnder(r[i], c))
  {
    var r := SortOrders(orders, c);
    forall i, j | 0 <= i < j < |r|
      ensures !Before(DateUnder(r[j], c), DateUnder(r[i], c))
    {
      assert r[i] in multiset(orders) && r[j] in multiset(orders);
      var a :| 0 <= a < |orders| && orders[a] == r[i];
      var b :| 0 <= b < |orders| && orders[b] == r[j];
      KeyOrdersDays(DateUnder(r[j], c), DateUnder(r[i], c));
    }
  }

  /** Orders sharing a sort date keep their relative order. */
  lemma SortOrdersStable(orders: seq<Order>, c: SortCriterion, k: int)
    ensures Filter(SortOrders(orders, c), KeyIs(SortKey(c), k)) == Filter(orders, KeyIs(SortKey(c), k))
  {
    SortStable(orders, SortKey(c), k);
  }

  /** The sorted list the page shows, and the criterion its selector displays. */
  datatype Listing = Listing(criterion: SortCriterion, orders: seq<Order>)

  /** What `GET /allOrders` produced. */
  datatype ListResponse = RequestFailed | NotAnArray | Rows(rows: seq<Order>)

  datatype Page = Failed(message: string) | Loaded(listing: Listing)

  /**
    The fetch effect: unsettled rows sorted by wedding date (the criterion
    in force when the effect was created), or an error message.
   */
  function Load(resp: ListResponse): (p: Page)
    ensures resp == RequestFailed ==> p == Failed("Error fetching orders")
    ensures resp == NotAnArray ==> p == Failed("Unexpected data format")
    ensures resp.Rows? ==> p.Loaded? && p.listing.criterion == WeddingDate
    ensures resp.Rows? ==> multiset(p.listing.orders) == multiset(RemainingOrders(resp.rows))
    ensures resp.Rows? ==> SortedBy(p.listing.orders, SortKey(WeddingDate))
  {
    match resp
    case RequestFailed => Failed("Error fetching orders")
    case NotAnArray => Failed("Unexpected data format")
    case Rows(rows) => Loaded(Listing(WeddingDate, SortOrders(RemainingOrders(rows), WeddingDate)))
  }

  /**
    `handleSortChange` as written: the new criterion is stored, but the
    re-sort runs in a closure that still sees the criterion selected
    before, so the list is ordered by the previous choice.
   */
  function HandleSortChange(l: Listing, chosen: SortCriterion): (r: Listing)
    ensures r.criterion == chosen
    ensures SortedBy(r.orders, SortKey(l.criterion))
    ensures multiset(r.orders) == multiset(l.orders)
  {
    Listing(chosen, SortOrders(l.orders, l.criterion))
  }

  /** Right after loading, the first change of criterion leaves the list exactly as it was. */
  lemma FirstSortChangeKeepsOrder(rows: seq<Order>, chosen: SortCriterion)
    ensures Load(Rows(rows)).Loaded?
    ensures HandleSortChange(Load(Rows(rows)).listing, chosen).orders == Load(Rows(rows)).listing.orders
  {
    var l := Load(Rows(rows)).listing;
    SortSortedIsIdentity(l.orders, SortKey(WeddingDate));
  }

  /** Two orders whose wedding dates and return dates run in opposite directions. */
  function EarlyWedding(): Order
  {
    Order("A", "", None, [], Day(2025, 1, 1), Day(2025, 1, 10), Day(2025, 1, 5), Day(2025, 2, 20), 100, 0, 0, false, false)
  }

  function LateWedding(): Order
  {
    Order("B", "", None, [], Day(2025, 1, 1), Day(2025, 1, 20), Day(2025, 1, 15), Day(2025, 2, 1), 100, 0, 0, false, false)
  }

  /** Rows that are all unsettled and already in wedding-date order load unchanged. */
  lemma LoadedAsReceived(rows: seq<Order>)
    requires forall o :: o in rows ==> Unsettled(o)
    requires SortedBy(rows, SortKey(WeddingDate))
    ensures Load(Rows(rows)) == Loaded(Listing(WeddingDate, rows))
  {
    FilterAll(rows, Unsettled);
    SortSortedIsIdentity(rows, SortKey(WeddingDate));
  }

  /** The two orders are unsettled and in wedding-date order, but out of return-date order. */
  lemma OppositeDateOrders()
    ensures var rows := [EarlyWedding(), LateWedding()];
            && (forall o :: o in rows ==> Unsettled(o))
            && SortedBy(rows, SortKey(WeddingDate))
            && !SortedBy(rows, SortKey(ReturnDate))
  {
    var rows := [EarlyWedding(), LateWedding()];
    assert SortKey(WeddingDate)(rows[0]) < SortKey(WeddingDate)(rows[1]);
    assert SortKey(ReturnDate)(rows[0]) > SortKey(ReturnDate)(rows[1]);
  }

  /** Choosing "Return Date" after loading does not order the list by return date. */
  lemma StaleCriterionCounterexample()
    ensures var l := HandleSortChange(Load(Rows([EarlyWedding(), LateWedding()])).listing, ReturnDate);
            l.criterion == ReturnDate && !SortedBy(l.orders, SortKey(ReturnDate))
  {
    var rows := [EarlyWedding(), LateWedding()];
    OppositeDateOrders();
    LoadedAsReceived(rows);
    SortSortedIsIdentity(rows, SortKey(WeddingDate));
    assert HandleSortChange(Listing(WeddingDate, rows), ReturnDate).orders == rows;
  }

  /** The intended handler: store the chosen criterion and sort by it. */
  function HandleSortChangeFixed(l: Listing, chosen: SortCriterion): (r: Listing)
    ensures r.criterion == chosen
    ensures SortedBy(r.orders, SortKey(chosen))
    ensures multiset(r.orders) == multiset(l.orders)
  {
    Listing(chosen, SortOrders(l.orders, chosen))
  }

  /** With the intended handler the list is always in the order its selector names. */
  lemma FixedListingMatchesSelector(l: Listing, chosen: SortCriterion)
    ensures SortedBy(HandleSortChangeFixed(l, chosen).orders, SortKey(HandleSortChangeFixed(l, chosen).criterion))
    ensures HandleSortChangeFixed(HandleSortChangeFixed(l, chosen), chosen) == HandleSortChangeFixed(l, chosen)
  {
    SortIdempotent(l.orders, SortKey(chosen));
  }

  // ---------------------------------------------------------------------
  // Status cells

  /** The "Transaction Status" cell. */
  function TransactionCell(o: Order): (cell: string)
    ensures cell == "Transaction Completed" <==> o.paidAmount >= o.itemPrice
    ensures cell == "Transaction Completed" || cell == "Not Completed"
  {
    if o.paidAmount >= o.itemPrice then "Transaction Completed" else "Not Completed"
  }

  /** The "Items Returned" cell. */
  function ReturnedCell(o: Order): (cell: string)
    ensures cell == "All Returned" <==> o.allItemsReturned
    ensures cell == "All Returned" || cell == "Not All Returned"
  {
    if o.allItemsReturned then "All Returned" else "Not All Returned"
  }

  /** A listed order that shows both cells complete can only be there because dispatch is incomplete. */
  lemma ListedCompleteRowsAwaitDispatch(rows: seq<Order>, o: Order)
    requires o in RemainingOrders(rows)
    requires TransactionCell(o) == "Transaction Completed" && ReturnedCell(o) == "All Returned"
    ensures !o.allItemsDispatched
  {
  }
}
