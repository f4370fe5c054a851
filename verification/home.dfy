/**
  The home dashboard: today's dispatch worklist and how a dispatch reply
  updates it, the month's earnings, the day-of-month suffix of the clock,
  and the keyboard cursor over the customer search results.
 */
module Home {
  import opened Seqs
  import opened Orders

  // ---------------------------------------------------------------------
  // Dispatch worklist

  /** The rows of `GET /ordersToDispatchToday` that still have an undispatched item. */
  function DispatchWorklist(rows: seq<Order>): (r: seq<Order>)
    ensures forall o :: o in r <==> o in rows && SomeUndispatched(o.items)
    ensures forall o :: multiset(r)[o] == if SomeUndispatched(o.items) then multiset(rows)[o] else 0
    ensures SubseqOf(r, rows)
  {
    Filter(rows, (o: Order) => SomeUndispatched(o.items))
  }

  /** The answer to `PUT /updateOrderDispatch/{orderId}`. */
  datatype DispatchReply = DispatchFailed | DispatchOk(fullyDispatched: bool)

  /** Every item called `itemName` gets dispatch flag `v`; the other items stay as they are. */
  function PatchItems(items: seq<Item>, itemName: string, v: bool): (r: seq<Item>)
    ensures |r| == |items|
    ensures forall i :: 0 <= i < |items| ==> r[i].itemName == items[i].itemName && r[i].isReturned == items[i].isReturned
    ensures forall i :: 0 <= i < |items| && items[i].itemName == itemName ==> r[i].isDispatched == v
    ensures forall i :: 0 <= i < |items| && items[i].itemName != itemName ==> r[i] == items[i]
  {
    seq(|items|, i requires 0 <= i < |items| =>
      if items[i].itemName == itemName then items[i].(isDispatched := v) else items[i])
  }

  /** Orders with id `orderId` get their matching items patched; every other order is untouched. */
  function PatchOrders(list: seq<Order>, orderId: string, itemName: string, v: bool): (r: seq<Order>)
    ensures |r| == |list|
    ensures forall i :: 0 <= i < |list| && list[i].orderId == orderId ==>
              r[i] == list[i].(items := PatchItems(list[i].items, itemName, v))
    ensures forall i :: 0 <= i < |list| && list[i].orderId != orderId ==> r[i] == list[i]
  {
    seq(|list|, i requires 0 <= i < |list| =>
      if list[i].orderId == orderId then list[i].(items := PatchItems(list[i].items, itemName, v)) else list[i])
  }

  /**
    `handleDispatchChange` once the server has answered: a failed request
    leaves the list alone, a "fully dispatched" answer removes the order,
    and any other answer patches the named items of the order.
   */
  function ApplyDispatchReply(list: seq<Order>, orderId: string, itemName: string, isDispatched: bool, reply: DispatchReply): (r: seq<Order>)
    ensures reply == DispatchFailed ==> r == list
    ensures reply == DispatchOk(true) ==> forall o :: o in r <==> o in list && o.orderId != orderId
    ensures reply == DispatchOk(true) ==> SubseqOf(r, list)
    ensures reply == DispatchOk(false) ==> |r| == |list|
    ensures reply == DispatchOk(false) ==> forall i :: 0 <= i < |list| ==>
              r[i].orderId == list[i].orderId && |r[i].items| == |list[i].items|
    ensures reply == DispatchOk(false) ==> forall i :: 0 <= i < |list| ==>
              r[i].(items := list[i].items) == list[i]
  {
    match reply
    case DispatchFailed => list
    case DispatchOk(true) => Filter(list, (o: Order) => o.orderId != orderId)
    case DispatchOk(false) => PatchOrders(list, orderId, itemName, isDispatched)
  }

  /** After a patch, the named items of the named order carry the new flag and nothing else moved. */
  lemma PatchTargetsOnlyNamedItems(list: seq<Order>, orderId: string, itemName: string, v: bool, i: nat, j: nat)
    requires i < |list| && j < |list[i].items|
    ensures var r := ApplyDispatchReply(list, orderId, itemName, v, DispatchOk(false));
            r[i].items[j].isDispatched
              == if list[i].orderId == orderId && list[i].items[j].itemName == itemName then v
                 else list[i].items[j].isDispatched
    ensures var r := ApplyDispatchReply(list, orderId, itemName, v, DispatchOk(false));
            r[i].items[j].itemName == list[i].items[j].itemName
              && r[i].items[j].isReturned == list[i].items[j].isReturned
  {
  }

  /** Patching twice with the same answer is patching once. */
  lemma {:induction false} PatchIdempotent(list: seq<Order>, orderId: string, itemName: string, v: bool)
    ensures PatchOrders(PatchOrders(list, orderId, itemName, v), orderId, itemName, v)
         == PatchOrders(list, orderId, itemName, v)
  {
    var once := PatchOrders(list, orderId, itemName, v);
    var twice := PatchOrders(once, orderId, itemName, v);
    forall i | 0 <= i < |list|
      ensures twice[i] == once[i]
    {
      if list[i].orderId == orderId {
        var items := list[i].items;
        assert PatchItems(PatchItems(items, itemName, v), itemName, v) == PatchItems(items, itemName, v);
      }
    }
  }

  /** After a "fully dispatched" answer no order with that id is left, and the others keep their multiplicity. */
  lemma RemovalDropsExactlyTheOrder(list: seq<Order>, orderId: string, itemName: string, v: bool, o: Order)
    ensures var r := ApplyDispatchReply(list, orderId, itemName, v, DispatchOk(true));
            multiset(r)[o] == if o.orderId == orderId then 0 else multiset(list)[o]
  {
  }

  // ---------------------------------------------------------------------
  // Monthly earnings

  /** An order counts towards this month's earnings: ordered this month and paid exactly price plus courier. */
  predicate EarnedIn(o: Order, today: Day)
  {
    o.orderedDate.month == today.month
    && o.orderedDate.year == today.year
    && o.itemPrice + o.courierCharge == o.paidAmount
  }

  function EarnedFilter(today: Day): Order -> bool
  {
    o => EarnedIn(o, today)
  }

  function Price(o: Order): int
  {
    o.itemPrice
  }

  /** The month's earnings: the item prices of the qualifying orders (courier charges are not earnings). */
  function MonthlyEarnings(orders: seq<Order>, today: Day): int
  {
    SumOf(Filter(orders, EarnedFilter(today)), Price)
  }

  /** The `filter(...).reduce(...)` of the earnings fetch, as a single pass. */
  method ComputeMonthlyEarnings(orders: seq<Order>, today: Day) returns (total: int)
    ensures total == MonthlyEarnings(orders, today)
  {
    total := 0;
    var i := 0;
    while i < |orders|
      invariant 0 <= i <= |orders|
      invariant total == MonthlyEarnings(orders[..i], today)
    {
      var o := orders[i];
      EarningsStep(orders, i, today);
      if EarnedIn(o, today) {
        total := total + o.itemPrice;
      }
      i := i + 1;
    }
    assert orders[..i] == orders;
  }

  lemma EarningsStep(orders: seq<Order>, i: nat, today: Day)
    requires i < |orders|
    ensures MonthlyEarnings(orders[..i + 1], today)
         == MonthlyEarnings(orders[..i], today) + (if EarnedIn(orders[i], today) then orders[i].itemPrice else 0)
  {
    assert orders[..i + 1] == orders[..i] + [orders[i]];
    EarningsOfAppend(orders[..i], orders[i], today);
  }

  function PaidLessCourier(o: Order): int
  {
    o.paidAmount - o.courierCharge
  }

  /** The earnings equal what the qualifying customers paid minus their courier charges. */
  lemma EarningsArePaymentsLessCourier(orders: seq<Order>, today: Day)
    ensures MonthlyEarnings(orders, today) == SumOf(Filter(orders, EarnedFilter(today)), PaidLessCourier)
  {
    var kept := Filter(orders, EarnedFilter(today));
    forall i | 0 <= i < |kept|
      ensures Price(kept[i]) == PaidLessCourier(kept[i])
    {
      assert kept[i] in kept;
      assert EarnedFilter(today)(kept[i]);
    }
    SumOfCongruent(kept, Price, PaidLessCourier);
  }

  /** An order from another month, or not paid exactly, adds nothing; a qualifying one adds its price. */
  lemma EarningsOfAppend(orders: seq<Order>, o: Order, today: Day)
    ensures MonthlyEarnings(orders + [o], today)
         == MonthlyEarnings(orders, today) + (if EarnedIn(o, today) then o.itemPrice else 0)
  {
    FilterAppend(orders, [o], EarnedFilter(today));
    SumOfAppend(Filter(orders, EarnedFilter(today)), Filter([o], EarnedFilter(today)), Price);
  }

  // ---------------------------------------------------------------------
  // Day-of-month suffix

  /** JavaScript's `%`: the remainder takes the sign of the dividend. */
  function JsRem(a: int, b: int): int
    requires b > 0
  {
    if a >= 0 then a % b else -((-a) % b)
  }

  /** `getOrdinalSuffix(day)`. */
  function OrdinalSuffix(day: int): (r: string)
    ensures 3 < day < 21 ==> r == "th"
    ensures r == "st" || r == "nd" || r == "rd" || r == "th"
  {
    if day > 3 && day < 21 then "th"
    else
      var last := JsRem(day, 10);
      if last == 1 then "st"
      else if last == 2 then "nd"
      else if last == 3 then "rd"
      else "th"
  }

  /** The English rule: 11th to 13th of every hundred, otherwise by the last digit. */
  function EnglishSuffix(n: nat): string
  {
    if 11 <= n % 100 <= 13 then "th"
    else if n % 10 == 1 then "st"
    else if n % 10 == 2 then "nd"
    else if n % 10 == 3 then "rd"
    else "th"
  }

  /** For every day of a month the page writes the English suffix (1st, 2nd, 3rd, 11th, 21st, 31st, ...). */
  lemma OrdinalSuffixIsEnglish(day: int)
    requires 1 <= day <= 31
    ensures OrdinalSuffix(day) == EnglishSuffix(day)
  {
    if day <= 3 {
      assert day % 10 == day && day % 100 == day;
    } else if day < 21 {
      assert day % 100 == day;
      if day < 10 {
        assert day % 10 == day;
      } else if day < 20 {
        assert day % 10 == day - 10;
      } else {
        assert day % 10 == 0;
      }
    } else if day < 30 {
      assert day % 10 == day - 20 && day % 100 == day;
    } else {
      assert day % 10 == day - 30 && day % 100 == day;
    }
  }

  // ---------------------------------------------------------------------
  // Search cursor

  datatype SearchResult = SearchResult(customerId: string, name: string)

  /** The search box: its text, the results on screen and the highlighted row (-1 for none). */
  datatype Search = Search(term: string, results: seq<SearchResult>, selected: int)

  const InitialSearch := Search("", [], -1)

  /** The highlighted row is "none" or one of the results. */
  predicate CursorInRange(s: Search)
  {
    -1 <= s.selected < |s.results|
  }

  /** Where a handler sends the browser; `Crash` is a read of `.customerID` past the end of the results. */
  datatype Navigation = Stay | GoTo(customerId: string) | Crash

  function Pick(results: seq<SearchResult>, index: int): (nav: Navigation)
    ensures nav.Crash? <==> !(0 <= index < |results|)
    ensures 0 <= index < |results| ==> nav == GoTo(results[index].customerId)
  {
    if 0 <= index < |results| then GoTo(results[index].customerId) else Crash
  }

  /** `handleSearchChange`: new text, highlight cleared; the results are replaced later, when the fetch answers. */
  function HandleSearchChange(s: Search, term: string): (r: Search)
    ensures CursorInRange(r) && r.selected == -1
    ensures r.term == term && r.results == s.results
  {
    s.(term := term, selected := -1)
  }

  /** `handleSearchSubmit`: opens the highlighted customer, or the first when none is highlighted. */
  function HandleSearchSubmit(s: Search): (nav: Navigation)
    ensures |s.results| == 0 <==> nav == Stay
    ensures CursorInRange(s) && |s.results| > 0 ==>
              nav == GoTo(s.results[if s.selected == -1 then 0 else s.selected].customerId)
    ensures nav == Crash <==> |s.results| > 0 && s.selected != -1 && !(0 <= s.selected < |s.results|)
  {
    if |s.results| > 0 then Pick(s.results, if s.selected != -1 then s.selected else 0) else Stay
  }

  datatype Key = ArrowDown | ArrowUp | Enter | OtherKey

  datatype KeyOutcome = KeyOutcome(search: Search, nav: Navigation)

  /**
    `handleKeyDown`. The arrows move the highlight within the results;
    Enter with a highlighted row opens it, and Enter without one is left to
    the browser, which submits the form.
   */
  function HandleKeyDown(s: Search, key: Key): (r: KeyOutcome)
    ensures r.search.term == s.term && r.search.results == s.results
    ensures CursorInRange(s) ==> CursorInRange(r.search)
    ensures CursorInRange(s) ==> r.nav != Crash
    ensures key == ArrowDown ==> r.search.selected == (if s.selected < |s.results| - 1 then s.selected + 1 else s.selected)
    ensures key == ArrowUp ==> r.search.selected == (if s.selected > 0 then s.selected - 1 else s.selected)
    ensures key.ArrowDown? || key.ArrowUp? || key.OtherKey? ==> r.nav == Stay
    ensures key == Enter || key == OtherKey ==> r.search == s
    ensures key == Enter && s.selected == -1 ==> r.nav == HandleSearchSubmit(s)
    ensures key == Enter && 0 <= s.selected < |s.results| ==> r.nav == GoTo(s.results[s.selected].customerId)
    ensures key == Enter && s.selected != -1 && !(0 <= s.selected < |s.results|) ==> r.nav == Crash
  {
    match key
    case ArrowDown =>
      KeyOutcome(s.(selected := if s.selected < |s.results| - 1 then s.selected + 1 else s.selected), Stay)
    case ArrowUp =>
      KeyOutcome(s.(selected := if s.selected > 0 then s.selected - 1 else s.selected), Stay)
    case Enter =>
      KeyOutcome(s, if s.selected != -1 then Pick(s.results, s.selected) else HandleSearchSubmit(s))
    case OtherKey =>
      KeyOutcome(s, Stay)
  }

  /** As written: new results replace the old ones and the highlight stays where it was. */
  function ResultsArrived(s: Search, results: seq<SearchResult>): (r: Search)
    ensures r.results == results && r.selected == s.selected && r.term == s.term
  {
    s.(results := results)
  }

  /**
    Arrow presses made while a fetch is pending walk the old results; when
    a shorter list arrives, Enter reads past its end.
   */
  lemma StaleCursorCounterexample()
    ensures var a := SearchResult("1", "Ann");
            var b := SearchResult("2", "Anna");
            var shown := Search("an", [a, b], -1);
            var typed := HandleSearchChange(shown, "ann");
            var moved := HandleKeyDown(HandleKeyDown(typed, ArrowDown).search, ArrowDown).search;
            var arrived := ResultsArrived(moved, [a]);
            CursorInRange(shown) && HandleKeyDown(arrived, Enter).nav == Crash
              && HandleSearchSubmit(arrived) == Crash
  {
  }

  /** The intended behaviour: results that replace the list also clear the highlight. */
  function ResultsArrivedFixed(s: Search, results: seq<SearchResult>): (r: Search)
    ensures r.results == results && r.term == s.term
    ensures CursorInRange(r) && r.selected == -1
  {
    s.(results := results, selected := -1)
  }

  /** What can happen to the search box. */
  datatype SearchEvent = Typed(term: string) | Pressed(key: Key) | Submitted | Arrived(results: seq<SearchResult>)

  datatype Trace = Trace(final: Search, navs: seq<Navigation>)

  /**
    One event on the search box, with arrivals handled by the corrected
    `ResultsArrivedFixed`: this is the page as intended, not as written.
   */
  function Step(s: Search, e: SearchEvent): (r: KeyOutcome)
    ensures e.Arrived? ==> r.search.results == e.results && r.search.selected == -1
    ensures !e.Arrived? ==> r.search.results == s.results
    ensures CursorInRange(s) ==> CursorInRange(r.search) && r.nav != Crash
    ensures e.Typed? || e.Arrived? ==> r.nav == Stay
  {
    match e
    case Typed(term) => KeyOutcome(HandleSearchChange(s, term), Stay)
    case Pressed(key) => HandleKeyDown(s, key)
    case Submitted => KeyOutcome(s, HandleSearchSubmit(s))
    case Arrived(results) => KeyOutcome(ResultsArrivedFixed(s, results), Stay)
  }

  /** The search box after a sequence of events, with where each event sent the browser. */
  function Run(s: Search, events: seq<SearchEvent>): (t: Trace)
    ensures |t.navs| == |events|
    ensures |events| > 0 && events[|events| - 1].Arrived? ==>
              t.final.results == events[|events| - 1].results && t.final.selected == -1
    decreases |events|
  {
    if |events| == 0 then Trace(s, [])
    else
      var out := Step(s, events[0]);
      var rest := Run(out.search, events[1..]);
      Trace(rest.final, [out.nav] + rest.navs)
  }

  /** With results that clear the highlight, no sequence of events ever reads past the results. */
  lemma {:induction false} RunNeverCrashes(s: Search, events: seq<SearchEvent>)
    requires CursorInRange(s)
    ensures CursorInRange(Run(s, events).final)
    ensures forall i :: 0 <= i < |events| ==> Run(s, events).navs[i] != Crash
    decreases |events|
  {
    if |events| > 0 {
      var out := Step(s, events[0]);
      assert CursorInRange(out.search) && out.nav != Crash;
      RunNeverCrashes(out.search, events[1..]);
      var t := Run(s, events);
      forall i | 0 <= i < |events|
        ensures t.navs[i] != Crash
      {
        if i > 0 {
          assert t.navs[i] == Run(out.search, events[1..]).navs[i - 1];
        }
      }
    }
  }
}
