/**
  The order profile page: the editable copy of one order, the item
  checkbox handlers (with the "every item dispatched stamps the courier
  date" rule), the amount arithmetic behind "Remaining Amount" and
  "Transaction Completed", and the payload sent on save.
 */
module OrderProfile {
  import opened Seqs
  import opened Orders

  /**
    The text of a currency field. The field allows at most two decimals,
    so a readable value is a whole number of cents; `Blank` is the empty
    string and `Unreadable` is text `parseFloat` turns into NaN.
   */
  datatype AmountText = Blank | Cents(cents: int) | Unreadable(text: string)

  /** `parseFloat(text) || 0`: the amount a field counts for, NaN and blank counting as zero. */
  function AmountOf(a: AmountText): int
  {
    if a.Cents? then a.cents else 0
  }

  /**
    A date field: absent (empty or missing), the `'DISPATCHED'` sentinel
    the server uses for an order dispatched in full, or an instant given
    as a day and a time of day in milliseconds.
   */
  datatype DateValue = NoDate | DispatchedMark | At(day: Day, timeOfDay: nat)

  /** The page's editable order (`orderData`). */
  datatype OrderForm = OrderForm(
    customerId: string,
    customerName: string,
    orderedDate: DateValue,
    weddingDate: DateValue,
    courierDate: DateValue,
    returnDate: DateValue,
    depositAmount: AmountText,
    itemPrice: AmountText,
    courierCharge: AmountText,
    paidAmount: AmountText,
    isPaid: bool,
    items: seq<Item>)

  /**
    `formatDate`: absent dates and the sentinel pass through untouched;
    an instant is cut down to its calendar day (`toISOString().split('T')[0]`).
   */
  function FormatDate(d: DateValue): (r: DateValue)
    ensures d.At? <==> r.At?
    ensures d.At? ==> r.day == d.day && r.timeOfDay == 0
    ensures !d.At? ==> r == d
  {
    match d
    case At(day, _) => At(day, 0)
    case _ => d
  }

  /** Formatting a formatted date changes nothing. */
  lemma FormatDateIdempotent(d: DateValue)
    ensures FormatDate(FormatDate(d)) == FormatDate(d)
  {
  }

  /** Where the page's order came from: the list page's navigation state, or `GET /getOrder/{orderId}`. */
  datatype OrderSource = FromNavigation | FromServer

  /**
    Building `orderData` from a received order: the ordered, wedding and
    return dates are formatted, the courier date is kept as received, a
    missing item list becomes empty, and only the server path turns a
    missing paid amount into `'0'`.
   */
  function LoadForm(data: OrderForm, items: Option<seq<Item>>, source: OrderSource): (r: OrderForm)
    ensures r.orderedDate == FormatDate(data.orderedDate) && r.weddingDate == FormatDate(data.weddingDate)
    ensures r.returnDate == FormatDate(data.returnDate)
    ensures r.courierDate == data.courierDate
    ensures r.items == items.GetOr([])
    ensures source == FromServer && data.paidAmount == Blank ==> r.paidAmount == Cents(0)
    ensures source == FromNavigation || data.paidAmount != Blank ==> r.paidAmount == data.paidAmount
    ensures r == data.(orderedDate := r.orderedDate, weddingDate := r.weddingDate, returnDate := r.returnDate,
                       paidAmount := r.paidAmount, items := r.items)
  {
    data.(orderedDate := FormatDate(data.orderedDate),
          weddingDate := FormatDate(data.weddingDate),
          returnDate := FormatDate(data.returnDate),
          paidAmount := if source == FromServer && data.paidAmount == Blank then Cents(0) else data.paidAmount,
          items := items.GetOr([]))
  }

  /** A loaded form is already formatted: loading it again changes only what the server path fills in. */
  lemma LoadFormSettles(data: OrderForm, items: Option<seq<Item>>, source: OrderSource)
    ensures var once := LoadForm(data, items, source);
            LoadForm(once, Some(once.items), source) == once
  {
  }

  // ---------------------------------------------------------------------
  // Item checkboxes

  /**
    `handleItemReturnedChange(index, checked)`: sets the return flag of the
    item at `index`; the handler is bound to the checkbox of a rendered
    item, so `index` is a position of the list.
   */
  function SetItemReturned(f: OrderForm, index: nat, checked: bool): (r: OrderForm)
    requires index < |f.items|
    ensures |r.items| == |f.items|
    ensures r.items[index].isReturned == checked
    ensures r.items[index].isDispatched == f.items[index].isDispatched
    ensures r.items[index].itemName == f.items[index].itemName
    ensures forall i :: 0 <= i < |f.items| && i != index ==> r.items[i] == f.items[i]
    ensures r == f.(items := r.items)
  {
    f.(items := f.items[index := f.items[index].(isReturned := checked)])
  }

  /**
    `handleItemDispatchedChange(index, checked)`: sets the dispatch flag of
    the item at `index`; when afterwards every item is dispatched, the
    courier date becomes `today`, otherwise it stays as it was.
   */
  function SetItemDispatched(f: OrderForm, index: nat, checked: bool, today: Day): (r: OrderForm)
    requires index < |f.items|
    ensures |r.items| == |f.items|
    ensures r.items[index].isDispatched == checked
    ensures r.items[index].isReturned == f.items[index].isReturned
    ensures r.items[index].itemName == f.items[index].itemName
    ensures forall i :: 0 <= i < |f.items| && i != index ==> r.items[i] == f.items[i]
    ensures r == f.(items := r.items, courierDate := r.courierDate)
    ensures r.courierDate == At(today, 0) || r.courierDate == f.courierDate
  {
    var items := f.items[index := f.items[index].(isDispatched := checked)];
    f.(items := items, courierDate := if AllDispatched(items) then At(today, 0) else f.courierDate)
  }

  /** The courier date is stamped exactly when the toggle leaves every item dispatched. */
  lemma DispatchStampsIffAllDispatched(f: OrderForm, index: nat, checked: bool, today: Day)
    requires index < |f.items|
    requires f.courierDate != At(today, 0)
    ensures SetItemDispatched(f, index, checked, today).courierDate == At(today, 0)
        <==> checked && forall i :: 0 <= i < |f.items| && i != index ==> f.items[i].isDispatched
  {
    var r := SetItemDispatched(f, index, checked, today);
    if checked && forall i :: 0 <= i < |f.items| && i != index ==> f.items[i].isDispatched {
      assert AllDispatched(r.items);
    }
  }

  /** Unticking a dispatch box never touches the courier date. */
  lemma UndispatchKeepsCourierDate(f: OrderForm, index: nat, today: Day)
    requires index < |f.items|
    ensures SetItemDispatched(f, index, false, today).courierDate == f.courierDate
  {
    assert !SetItemDispatched(f, index, false, today).items[index].isDispatched;
  }

  /**
    The stamp is not a one-time latch: on a fully dispatched order, unticking
    a box leaves the courier date alone, and ticking it again restores the
    items and overwrites the courier date with the new day, even when it
    held the `'DISPATCHED'` sentinel or an earlier day.
   */
  lemma RedispatchRestamps(f: OrderForm, index: nat, earlier: Day, today: Day)
    requires index < |f.items|
    requires AllDispatched(f.items)
    ensures var unticked := SetItemDispatched(f, index, false, earlier);
            var reticked := SetItemDispatched(unticked, index, true, today);
            && unticked.courierDate == f.courierDate
            && reticked.items == f.items
            && reticked.courierDate == At(today, 0)
  {
    var unticked := SetItemDispatched(f, index, false, earlier);
    assert !unticked.items[index].isDispatched;
    assert unticked.items[index := unticked.items[index].(isDispatched := true)] == f.items;
  }

  /** Unticking then re-ticking an item's return box restores the form. */
  lemma ReturnToggleRoundTrip(f: OrderForm, index: nat)
    requires index < |f.items|
    ensures SetItemReturned(SetItemReturned(f, index, !f.items[index].isReturned), index, f.items[index].isReturned) == f
  {
    assert f.items[index := f.items[index].(isReturned := !f.items[index].isReturned)]
            [index := f.items[index]] == f.items;
  }

  // ---------------------------------------------------------------------
  // Field edits

  /** The date inputs wired to `handleInputChange` (the courier date input is read-only). */
  datatype DateInput = OrderedDateInput | WeddingDateInput | ReturnDateInput

  /** `handleInputChange` for a non-checkbox input: stores the input's value under its name. */
  function HandleInputChange(f: OrderForm, name: DateInput, value: DateValue): (r: OrderForm)
    ensures name == OrderedDateInput ==> r == f.(orderedDate := value)
    ensures name == WeddingDateInput ==> r == f.(weddingDate := value)
    ensures name == ReturnDateInput ==> r == f.(returnDate := value)
  {
    match name
    case OrderedDateInput => f.(orderedDate := value)
    case WeddingDateInput => f.(weddingDate := value)
    case ReturnDateInput => f.(returnDate := value)
  }

  /** The currency inputs wired to `handleCurrencyInput`. */
  datatype AmountInput = DepositAmountInput | ItemPriceInput | PaidAmountInput

  function AmountField(f: OrderForm, name: AmountInput): AmountText
  {
    match name
    case DepositAmountInput => f.depositAmount
    case ItemPriceInput => f.itemPrice
    case PaidAmountInput => f.paidAmount
  }

  /**
    `handleCurrencyInput(value, name)`: stores `value || ''`; a cleared
    field reports no value, which is stored as the empty string.
   */
  function HandleCurrencyInput(f: OrderForm, value: Option<AmountText>, name: AmountInput): (r: OrderForm)
    ensures AmountField(r, name) == value.GetOr(Blank)
    ensures forall other: AmountInput :: other != name ==> AmountField(r, other) == AmountField(f, other)
    ensures r.(depositAmount := f.depositAmount, itemPrice := f.itemPrice, paidAmount := f.paidAmount) == f
  {
    var stored := value.GetOr(Blank);
    match name
    case DepositAmountInput => f.(depositAmount := stored)
    case ItemPriceInput => f.(itemPrice := stored)
    case PaidAmountInput => f.(paidAmount := stored)
  }

  /** A date edit reaches the saved payload unchanged, and nothing else in the payload moves. */
  lemma DateEditReachesPayload(f: OrderForm, name: DateInput, value: DateValue)
    ensures var edited := SavePayload(HandleInputChange(f, name, value));
            var saved := SavePayload(f);
            && (name == OrderedDateInput ==> edited == saved.(orderedDate := value))
            && (name == WeddingDateInput ==> edited == saved.(weddingDate := value))
            && (name == ReturnDateInput ==> edited == saved.(returnDate := value))
  {
  }

  // ---------------------------------------------------------------------
  // Amounts

  /** `calculateTotalAmount`: the item price alone. */
  function TotalAmount(f: OrderForm): (total: int)
    ensures f.itemPrice.Cents? ==> total == f.itemPrice.cents
    ensures !f.itemPrice.Cents? ==> total == 0
  {
    AmountOf(f.itemPrice)
  }

  /** `calculateRemainingAmount`: total minus what has been paid. */
  function RemainingAmount(f: OrderForm): (remaining: int)
    ensures f.paidAmount.Cents? ==> remaining == TotalAmount(f) - f.paidAmount.cents
    ensures !f.paidAmount.Cents? ==> remaining == TotalAmount(f)
  {
    TotalAmount(f) - AmountOf(f.paidAmount)
  }

  /** `isTransactionCompleted`: nothing remains to be paid, that is, the paid amount reaches the price. */
  predicate IsTransactionCompleted(f: OrderForm): (completed: bool)
    ensures completed <==> AmountOf(f.paidAmount) >= AmountOf(f.itemPrice)
  {
    RemainingAmount(f) <= 0
  }

  /**
    The remaining amount reads only the price and the paid amount: neither
    the courier charge nor the deposit enters it, and blank or unreadable
    amounts count as zero.
   */
  lemma RemainingIgnoresCourierAndDeposit(f: OrderForm, courier: AmountText, deposit: AmountText)
    ensures RemainingAmount(f.(courierCharge := courier, depositAmount := deposit)) == RemainingAmount(f)
    ensures !f.paidAmount.Cents? ==> RemainingAmount(f) == AmountOf(f.itemPrice)
    ensures !f.itemPrice.Cents? ==> RemainingAmount(f) == -AmountOf(f.paidAmount)
  {
  }

  /**
    What a currency edit does to the amount still owed: entering a paid
    amount of `c` leaves price minus `c` and completes the transaction
    exactly when `c` reaches the price; clearing it leaves the whole price;
    entering a price of `c` leaves `c` minus paid; the deposit never counts.
   */
  lemma CurrencyEditDecidesRemaining(f: OrderForm, c: int, deposit: Option<AmountText>)
    ensures RemainingAmount(HandleCurrencyInput(f, Some(Cents(c)), PaidAmountInput)) == AmountOf(f.itemPrice) - c
    ensures IsTransactionCompleted(HandleCurrencyInput(f, Some(Cents(c)), PaidAmountInput)) <==> c >= AmountOf(f.itemPrice)
    ensures RemainingAmount(HandleCurrencyInput(f, None, PaidAmountInput)) == AmountOf(f.itemPrice)
    ensures SavePayload(HandleCurrencyInput(f, None, PaidAmountInput)).paidAmount == Cents(0)
    ensures RemainingAmount(HandleCurrencyInput(f, Some(Cents(c)), ItemPriceInput)) == c - AmountOf(f.paidAmount)
    ensures RemainingAmount(HandleCurrencyInput(f, deposit, DepositAmountInput)) == RemainingAmount(f)
  {
  }

  // ---------------------------------------------------------------------
  // Save

  /**
    The body of `PUT /updateOrder` built by `handleSave`: a blank paid
    amount is sent as `'0'`, `isPaid` is recomputed from the remaining
    amount, the courier date is formatted unless it is the sentinel, and
    every other field is sent as edited.
   */
  function SavePayload(f: OrderForm): (r: OrderForm)
    ensures r.isPaid <==> AmountOf(f.paidAmount) >= AmountOf(f.itemPrice)
    ensures f.paidAmount == Blank ==> r.paidAmount == Cents(0)
    ensures f.paidAmount != Blank ==> r.paidAmount == f.paidAmount
    ensures f.courierDate == DispatchedMark ==> r.courierDate == DispatchedMark
    ensures r.courierDate == FormatDate(f.courierDate)
    ensures r == f.(paidAmount := r.paidAmount, isPaid := r.isPaid, courierDate := r.courierDate)
  {
    f.(paidAmount := if f.paidAmount == Blank then Cents(0) else f.paidAmount,
       isPaid := RemainingAmount(f) <= 0,
       courierDate := if f.courierDate == DispatchedMark then DispatchedMark else FormatDate(f.courierDate))
  }

  /** The `isPaid` flag that is saved agrees with what the saved amounts say. */
  lemma SavedIsPaidConsistent(f: OrderForm)
    ensures SavePayload(f).isPaid == IsTransactionCompleted(SavePayload(f))
    ensures RemainingAmount(SavePayload(f)) == RemainingAmount(f)
  {
  }

  /** An order the server marked `'DISPATCHED'` keeps the mark from loading through saving. */
  lemma SentinelSurvivesLoadAndSave(data: OrderForm, items: Option<seq<Item>>, source: OrderSource)
    requires data.courierDate == DispatchedMark
    ensures SavePayload(LoadForm(data, items, source)).courierDate == DispatchedMark
  {
  }

  /** Saving a payload again sends the same payload. */
  lemma SaveIdempotent(f: OrderForm)
    ensures SavePayload(SavePayload(f)) == SavePayload(f)
  {
  }

  /** Worked example: price 1000, paid 400 leaves 600 and is incomplete; paying 1000 completes it. */
  lemma RemainingExample(f: OrderForm)
    requires f.itemPrice == Cents(100000) && f.paidAmount == Cents(40000)
    ensures RemainingAmount(f) == 60000 && !IsTransactionCompleted(f)
    ensures IsTransactionCompleted(f.(paidAmount := Cents(100000)))
  {
  }
}
