# Order management front end: the page logic as pure functions

This project models the state transformations inside the event handlers of
a wedding-dress rental shop's React front end, and proves properties of
them. The shop's staff keep orders (items, wedding, courier and return
dates, price, courier charge, paid amount), dispatch and collect items,
keep customer profiles, and generate and pay staff salaries.

Each handler is lifted out as a function from state and event to state:

- `OrderProfile`: the order profile page. It covers the item dispatch and
  return checkboxes, the rule "every item dispatched stamps the courier
  date", the remaining amount and "Transaction Completed", the `'DISPATCHED'`
  sentinel, field edits, and the payload sent on save.
- `AllOrders`: the "All Orders" list. It covers the unsettled-order filter,
  the date sort (a stable sort on integer date keys), the sort selector and
  the status cells.
- `CompletedOrders`: settled orders decorated with their item names joined
  by `", "`, shown with constant status cells.
- `Home`: the dashboard. It covers the dispatch worklist and its update
  after a dispatch reply, the month's earnings, the ordinal suffix of the
  clock's day, and the keyboard cursor over the customer search results.
- `GenerateSalary`: the payroll page as a state machine. Its inputs are the
  user's actions and the server's answers to the "already generated" and
  "already paid" probes and to the two POSTs.
- `CustomerProfile`: loading a customer, editing fields, appending,
  editing and removing contact numbers, and the update payload.
- `LoginValidation`: the email and password checks. Each regular
  expression is given as the language it denotes, with a direct scan
  proved equal to it.

Shared modules:

- `Seqs`: `Option`, an order-preserving `Filter` with its membership and
  multiplicity contract, sums, and `Join`.
- `StableSort`: a stable insertion sort by integer key.
- `Orders`: the order rows the list pages receive, calendar days as ordered
  keys, and the list pages' `formatDate`.

Server answers, "today" and the current year are parameters. Money is an
integer number of cents. A date on the list pages is a `Day` whose key
orders days as the calendar does.

Behaviour of the code worth knowing:

- The courier date is not a one-time latch. `handleItemDispatchedChange`
  re-stamps it with the current day whenever a toggle leaves every item
  dispatched. On a fully dispatched order, unticking a box and ticking it
  again therefore overwrites the stored date, including the `'DISPATCHED'`
  sentinel (`OrderProfile.RedispatchRestamps`).
- Item flags can be toggled back (`OrderProfile.ReturnToggleRoundTrip`,
  `OrderProfile.UndispatchKeepsCourierDate`).
- The payroll PIN is a constant compared on the client
  (`GenerateSalary.HardcodedPin`).
- The payment carries the page's current net salary. That value follows
  edits made after the salary was generated
  (`GenerateSalary.PaidNetFollowsLaterEdits`).
- A payment always comes after some generate request, but not
  necessarily one for the same employee. Choosing another employee after
  generating and then paying sends a payment for the newly chosen employee
  (`GenerateSalary.PaymentMayNameAnotherEmployee`).
- `handleDispatchChange` on the dashboard (`Home.ApplyDispatchReply`) is
  bound to no rendered control. The worklist shows its items as plain text,
  so this update cannot be reached from the page as rendered; it is
  modelled as written.
- Both list pages define the same `formatDate` (`AllOrders.js` and
  `CompletedOrders.js` each have their own identical copy): a missing date
  shows as "" and any other text unchanged (`Orders.FormatDateCell`).

## Model

| member | source | states |
|---|---|---|
| `Orders.KeyOrdersDays` | frontend/src/AllOrders.js:43-45 | Comparing two days' keys agrees with the calendar order of the days, and equal keys mean the same day, so sorting by key is sorting by date |
| `Orders.FormatDateCell` | frontend/src/CompletedOrders.js:45-48 | A missing or empty date shows as "" and any other text shows unchanged, in both directions. It works on the date text as the server sends it, before that text is read as a `Day`, and no other member uses it |
| `OrderProfile.FormatDate` | frontend/src/OrderProfile.js:65-69 | Absent dates and the `'DISPATCHED'` sentinel pass through unchanged; an instant keeps its calendar day and loses its time of day |
| `OrderProfile.FormatDateIdempotent` | frontend/src/OrderProfile.js:65-69 | Formatting an already formatted date changes nothing |
| `OrderProfile.LoadForm` | frontend/src/OrderProfile.js:30-63 | A received order gets formatted ordered, wedding and return dates. Its courier date is kept verbatim, a missing item list becomes empty, and only the server path turns a missing paid amount into 0; nothing else changes |
| `OrderProfile.LoadFormSettles` | frontend/src/OrderProfile.js:30-63 | Loading an already loaded form again gives the same form |
| `OrderProfile.SetItemReturned` | frontend/src/OrderProfile.js:79-85 | Only the chosen item's return flag changes; its name and dispatch flag, every other item, the courier date and every other field stay the same |
| `OrderProfile.ReturnToggleRoundTrip` | frontend/src/OrderProfile.js:79-85 | Unticking and re-ticking a return box restores the form, so the flag is reversible |
| `OrderProfile.SetItemDispatched` | frontend/src/OrderProfile.js:87-101 | Only the chosen item's dispatch flag changes among the items. The courier date is either today or unchanged, and nothing else changes |
| `OrderProfile.DispatchStampsIffAllDispatched` | frontend/src/OrderProfile.js:92-99 | The courier date becomes today exactly when the toggle ticks the box and every other item is already dispatched |
| `OrderProfile.UndispatchKeepsCourierDate` | frontend/src/OrderProfile.js:87-101 | Unticking a dispatch box never changes the courier date |
| `OrderProfile.RedispatchRestamps` | frontend/src/OrderProfile.js:87-101 | On a fully dispatched order, unticking a box keeps the courier date, and ticking it again restores the items and stamps the new day, overwriting an earlier date or the sentinel |
| `OrderProfile.HandleInputChange` | frontend/src/OrderProfile.js:71-77 | A date input stores its value under its own name and changes no other field |
| `OrderProfile.HandleCurrencyInput` | frontend/src/OrderProfile.js:103-108 | A currency input stores its value, or the empty string when it reports none, in the named amount field; the other amounts and every other field are unchanged |
| `OrderProfile.DateEditReachesPayload` | frontend/src/OrderProfile.js:71-121 | A date edit reaches the saved payload unchanged, and the payload is otherwise the one the unedited form gives |
| `OrderProfile.CurrencyEditDecidesRemaining` | frontend/src/OrderProfile.js:103-148 | Entering a paid amount c leaves price minus c, and completes the transaction exactly when c reaches the price. Clearing it leaves the whole price and saves 0. Entering a price c leaves c minus paid, and a deposit edit changes nothing owed |
| `OrderProfile.RemainingIgnoresCourierAndDeposit` | frontend/src/OrderProfile.js:135-144 | Courier charge and deposit never enter the remaining amount; a blank or unreadable paid amount leaves the whole price remaining, and a blank or unreadable price leaves minus the paid amount |
| `OrderProfile.TotalAmount` | frontend/src/OrderProfile.js:135-138 | The total is the item price when it reads as a number, and 0 when it is blank or unreadable |
| `OrderProfile.RemainingAmount` | frontend/src/OrderProfile.js:140-144 | What remains is the total minus the paid amount when that reads as a number, and the whole total when the paid amount is blank or unreadable |
| `OrderProfile.IsTransactionCompleted` | frontend/src/OrderProfile.js:146-148 | "Transaction Completed" holds exactly when the paid amount reaches the item price |
| `OrderProfile.RemainingExample` | frontend/src/OrderProfile.js:140-148 | Example: price 1000 and paid 400 leave 600 and are not complete; paying 1000 completes the transaction |
| `OrderProfile.SavePayload` | frontend/src/OrderProfile.js:114-121 | The saved `isPaid` holds exactly when paid covers price, and a blank paid amount is sent as 0. A `'DISPATCHED'` courier date is kept, any other is formatted, and every other field is sent as edited |
| `OrderProfile.SavedIsPaidConsistent` | frontend/src/OrderProfile.js:116-120 | The saved `isPaid` agrees with what the saved amounts say, and saving does not change the remaining amount |
| `OrderProfile.SaveIdempotent` | frontend/src/OrderProfile.js:114-121 | Building the payload from a payload gives the same payload |
| `OrderProfile.SentinelSurvivesLoadAndSave` | frontend/src/OrderProfile.js:53-120 | An order marked `'DISPATCHED'` still carries the mark in the payload after loading and saving |
| `AllOrders.RemainingOrders` | frontend/src/AllOrders.js:21-26 | An order is kept exactly when it is not fully paid, not all returned or not all dispatched. Kept orders keep their multiplicity and relative order, and nothing is added |
| `AllOrders.SortOrders` | frontend/src/AllOrders.js:42-47 | The result is a permutation of the input, ascending by the chosen date |
| `AllOrders.SortOrdersStable` | frontend/src/AllOrders.js:42-47 | Orders sharing a date keep their relative order |
| `AllOrders.SortOrdersChronological` | frontend/src/AllOrders.js:42-47 | With valid dates, no listed order's chosen date falls on a calendar day before that of an order listed above it |
| `AllOrders.Load` | frontend/src/AllOrders.js:14-40 | A failed request and a non-array body give their two messages. Rows give the unsettled orders as a permutation sorted by wedding date, with that criterion shown |
| `AllOrders.HandleSortChange` | frontend/src/AllOrders.js:49-53 | As written: the selector shows the new criterion, but the list is sorted by the criterion selected before the change |
| `AllOrders.FirstSortChangeKeepsOrder` | frontend/src/AllOrders.js:49-53 | Right after loading, the first change of criterion leaves the list exactly as it was, whatever was chosen |
| `AllOrders.StaleCriterionCounterexample` | frontend/src/AllOrders.js:49-53 | Two loaded orders chosen to be sorted by return date stay out of return-date order |
| `AllOrders.HandleSortChangeFixed` | frontend/src/AllOrders.js:49-53 | Intended handler: the list is a permutation sorted by the newly chosen criterion |
| `AllOrders.FixedListingMatchesSelector` | frontend/src/AllOrders.js:49-53 | With the intended handler the list is always in the order the selector names, and choosing the same criterion again changes nothing |
| `AllOrders.TransactionCell` | frontend/src/AllOrders.js:124-130 | The cell reads "Transaction Completed" exactly when paid is at least the price, and "Not Completed" otherwise |
| `AllOrders.ReturnedCell` | frontend/src/AllOrders.js:131-137 | The cell reads "All Returned" exactly when every item is returned, and "Not All Returned" otherwise |
| `AllOrders.ListedCompleteRowsAwaitDispatch` | frontend/src/AllOrders.js:21-26 | A listed order showing both cells complete has not had every item dispatched |
| `CompletedOrders.Decorate` | frontend/src/CompletedOrders.js:25-29 | Every field but `itemNames` is kept. `itemNames` is the item names joined by ", " in item order: "" with no items and the name itself with one item; otherwise it starts with the first name and its length is the names' total plus two per separator |
| `CompletedOrders.DecoratePlacesNames` | frontend/src/CompletedOrders.js:25-29 | Item i's name sits in `itemNames` right after the names before it, each followed by ", ", and ", " follows it unless it is the last item |
| `CompletedOrders.JoinPlacesParts` | frontend/src/CompletedOrders.js:28 | Every part of a joined string sits at the offset of the parts before it plus one separator each, with the separator after it unless it is the last |
| `CompletedOrders.JoinLength` | frontend/src/CompletedOrders.js:28 | A joined string is as long as its parts plus one separator between each pair of neighbours |
| `CompletedOrders.JoinEnds` | frontend/src/CompletedOrders.js:28 | A joined string starts with the first part and ends with the last |
| `CompletedOrders.Load` | frontend/src/CompletedOrders.js:13-43 | The page loads exactly when the row fetch and every item fetch succeed. Row i is then the i-th fetched row decorated with its own items, the length is kept, and any failure gives "Error fetching completed orders" |
| `CompletedOrders.LoadKeepsRows` | frontend/src/CompletedOrders.js:20-31 | Decoration changes nothing but the item names: ids, amounts and flags come through in the same order |
| `CompletedOrders.RowStatus` | frontend/src/CompletedOrders.js:104-109 | The status cells always read "Transaction Completed" and "All Returned" |
| `Home.DispatchWorklist` | frontend/src/Home.js:32-34 | An order is kept exactly when some item is undispatched; kept orders keep their multiplicity and original order |
| `Home.PatchItems` | frontend/src/Home.js:201-205 | Every item with the given name gets the new dispatch flag; names, return flags, the list length and every other item are unchanged |
| `Home.PatchOrders` | frontend/src/Home.js:198-207 | Only orders with the given id have their items patched; the length and every other order are unchanged |
| `Home.ApplyDispatchReply` | frontend/src/Home.js:186-213 | A failed request leaves the list alone. "Fully dispatched" removes exactly the orders with that id and keeps the rest in order. Otherwise the length, the order ids and everything but the items are kept |
| `Home.PatchTargetsOnlyNamedItems` | frontend/src/Home.js:197-208 | After a patch an item's dispatch flag is the new value if its order and name match, and its old value otherwise; names and return flags never change |
| `Home.PatchIdempotent` | frontend/src/Home.js:197-208 | Applying the same patch twice is applying it once |
| `Home.RemovalDropsExactlyTheOrder` | frontend/src/Home.js:193-195 | After removal no order with that id is left, and every other order keeps its multiplicity |
| `Home.ComputeMonthlyEarnings` | frontend/src/Home.js:56-66 | A single pass over the orders computes the month's earnings: the prices of this month's orders paid exactly price plus courier |
| `Home.EarningsOfAppend` | frontend/src/Home.js:57-66 | One more order adds its price when it was ordered this month and paid exactly price plus courier, and adds nothing otherwise |
| `Home.EarningsArePaymentsLessCourier` | frontend/src/Home.js:56-66 | The earnings equal what the qualifying customers paid minus their courier charges, so courier charges are never counted |
| `Home.OrdinalSuffix` | frontend/src/Home.js:168-180 | Days 4 to 20 get "th", and every result is one of the four suffixes |
| `Home.OrdinalSuffixIsEnglish` | frontend/src/Home.js:168-180 | For every day from 1 to 31 the suffix is the English one: 1st, 2nd, 3rd, 11th to 13th, 21st, 22nd, 23rd, 31st |
| `Home.Pick` | frontend/src/Home.js:133-152 | Opening a result fails exactly when the index is not a position of the results; at a valid position it opens that result's customer |
| `Home.HandleSearchChange` | frontend/src/Home.js:123-126 | New text clears the highlight, which is then in range; the results are untouched |
| `Home.HandleSearchSubmit` | frontend/src/Home.js:128-137 | Submitting stays put exactly when there are no results. With the highlight in range it opens the highlighted result, or the first when none is highlighted; it fails only for an out-of-range highlight |
| `Home.HandleKeyDown` | frontend/src/Home.js:139-154 | The arrows move the highlight by one within [-1, results-1] and never change the text or results. A highlight in range stays in range and never leads to a failed read. Enter on a highlighted result opens that customer, Enter on an out-of-range highlight fails, and Enter without a highlight falls through to submit. Enter and any other key leave the highlight, text and results as they were |
| `Home.ResultsArrived` | frontend/src/Home.js:101 | As written: new results replace the old ones and the highlight index stays as it was |
| `Home.StaleCursorCounterexample` | frontend/src/Home.js:101 | Arrow presses made while a search is pending, followed by a shorter result list, make both Enter and submit read past the end of the results |
| `Home.ResultsArrivedFixed` | frontend/src/Home.js:101 | Intended: new results replace the list and reset the highlight to "none" (-1), which is in range |
| `Home.Step` | frontend/src/Home.js:101-154 | One event on the search box of the corrected page, whose arriving results reset the highlight to "none". Only arrivals change the results, typing and arrivals never navigate, and a highlight in range stays in range without a failed read |
| `Home.Run` | frontend/src/Home.js:101-154 | A session of the corrected page gives one navigation per event, and after a final arrival the results are the arrived ones with no highlight |
| `Home.RunNeverCrashes` | frontend/src/Home.js:123-154 | With results that clear the highlight, no sequence of typing, keys, submits and arrivals ever reads past the results, and the highlight stays in range |
| `GenerateSalary.YearOptions` | frontend/src/GenerateSalary.js:36-38 | Six years, from the current year down to five years earlier, strictly descending |
| `GenerateSalary.YearOptionsCover` | frontend/src/GenerateSalary.js:36-38 | A year is offered exactly when it is within five years before the current one |
| `GenerateSalary.HandleSelect` | frontend/src/GenerateSalary.js:174-195 | Choosing a month, year, branch or employee stores it, keeps the other three, and clears the error message; nothing else changes |
| `GenerateSalary.EmployeeLoaded` | frontend/src/GenerateSalary.js:51-68 | The employee's basic pay and salary are stored and the net salary becomes salary minus leave deduction |
| `GenerateSalary.EnterLeaveDeduction` | frontend/src/GenerateSalary.js:64-68 | A new leave deduction is stored and the net salary becomes salary minus it |
| `GenerateSalary.HandleGenerate` | frontend/src/GenerateSalary.js:74-114 | The net salary is salary minus deduction. A record is POSTed, with that net salary, only when the probe answers "not generated". "Generated" shows the server message, and a failed probe shows its message. The net salary appears exactly after a successful POST, and a failed POST shows the server's message or the default |
| `GenerateSalary.HandlePay` | frontend/src/GenerateSalary.js:116-129 | An already paid period shows "Salary is already paid for {month}." and leaves the popup as it was. An unpaid one opens the popup, and a failed probe shows "Error checking payment status." |
| `GenerateSalary.HandlePinSubmit` | frontend/src/GenerateSalary.js:131-150 | A payment is POSTed exactly when the PIN is "1234", carrying the page's net salary. A wrong PIN shows "Incorrect PIN. Please try again." with the popup left open. Success closes the popup, and failure shows "Error updating payment status." |
| `GenerateSalary.Enabled` | frontend/src/GenerateSalary.js:171-246 | Which controls are on screen: the inputs always are, Generate needs the four `required` selections, the "Paid" button needs the net salary on screen, the PIN controls need the popup, and on a fresh page only the inputs are usable |
| `GenerateSalary.Step` | frontend/src/GenerateSalary.js:74-246 | An event whose control is not on screen changes nothing. A step sends at most one POST: a generate record from Generate, or a payment from the PIN submit, and only from the open popup with the PIN "1234" |
| `GenerateSalary.Run` | frontend/src/GenerateSalary.js:74-246 | A session with no events changes nothing, and a session never sends more POSTs than it has events |
| `GenerateSalary.StepPreserves` | frontend/src/GenerateSalary.js:64-68 | Every event keeps net salary equal to salary minus leave deduction, and a payment carries that value |
| `GenerateSalary.StepRequests` | frontend/src/GenerateSalary.js:223-246 | A payment is only sent from the open popup, the net salary only appears through a generate request, and the popup is never open without the net salary |
| `GenerateSalary.RunKeepsHistory` | frontend/src/GenerateSalary.js:99-150 | Continuing a session whose history already agrees with the page never sends a payment that no generate request precedes |
| `GenerateSalary.PaymentFollowsGeneration` | frontend/src/GenerateSalary.js:99-150 | In any session from a fresh page, every payment request comes after some generate request |
| `GenerateSalary.RunKeepsNetConsistent` | frontend/src/GenerateSalary.js:64-68 | However a session goes on, the net salary stays salary minus leave deduction |
| `GenerateSalary.PaymentMayNameAnotherEmployee` | frontend/src/GenerateSalary.js:116-150 | Generating for one employee, choosing another, paying and typing the PIN sends a payment for the other employee, yet every payment still follows a generate request |
| `GenerateSalary.PaidNetFollowsLaterEdits` | frontend/src/GenerateSalary.js:131-138 | Generating, then changing the leave deduction, then paying and typing the PIN sends the new net salary rather than the generated one |
| `CustomerProfile.WithoutPosition` | frontend/src/CustomerProfile.js:67 | The entry at a valid position is removed, the others keep their order, and an out-of-range position leaves the list unchanged |
| `CustomerProfile.AddContactNumber` | frontend/src/CustomerProfile.js:59-64 | Exactly one empty entry is appended after the unchanged existing entries, and nothing else changes |
| `CustomerProfile.RemoveContactNumber` | frontend/src/CustomerProfile.js:66-72 | The entry at the index is removed and the others keep their order. Removing the last one leaves `[""]`, an out-of-range index changes nothing, and the list is never empty |
| `CustomerProfile.RemoveUndoesAdd` | frontend/src/CustomerProfile.js:59-72 | Adding an entry and then removing it restores the profile |
| `CustomerProfile.HandleInputChange` | frontend/src/CustomerProfile.js:48-57 | A text edit changes only its own field. A contact edit replaces only that entry, keeps the length and changes nothing else |
| `CustomerProfile.EditsKeepContactsNonEmpty` | frontend/src/CustomerProfile.js:48-72 | No edit, append or removal empties a non-empty contact list |
| `CustomerProfile.SubmitPayload` | frontend/src/CustomerProfile.js:77-80 | Exactly the empty entries are dropped. Every other entry keeps its multiplicity and order, and every other field is copied |
| `CustomerProfile.SubmitIdempotent` | frontend/src/CustomerProfile.js:77-80 | The payload of a payload is the payload |
| `CustomerProfile.SubmitIgnoresAddedBlank` | frontend/src/CustomerProfile.js:59-80 | An entry added and left empty does not reach the server |
| `CustomerProfile.SubmitMayBeEmpty` | frontend/src/CustomerProfile.js:77-80 | A profile whose only entry is empty is sent with no contact number at all |
| `CustomerProfile.LoadProfile` | frontend/src/CustomerProfile.js:28-46 | A profile loads exactly when the body is present and has a contact list; every field, the contact list included, is taken as received. A failed request and a body without a list give their two messages |
| `CustomerProfile.LoadThenSubmit` | frontend/src/CustomerProfile.js:28-80 | Loading a profile and saving it unedited sends every field as received and the received contact numbers minus the empty ones, in order; with no empty entry the list goes back exactly as received |
| `CustomerProfile.EmptyContactListLoads` | frontend/src/CustomerProfile.js:34-35 | A profile with an empty contact list is accepted and shown with no entries |
| `LoginValidation.EmailShapeIsPattern` | frontend/src/LoginValidation.js:3 | The direct email check accepts exactly the strings the pattern matches |
| `LoginValidation.PasswordShapeIsPattern` | frontend/src/LoginValidation.js:4 | The direct password check accepts exactly the pattern's language: at least 8 characters, an ASCII digit, a lowercase and an uppercase letter, and no line terminator |
| `LoginValidation.Validation` | frontend/src/LoginValidation.js:1-23 | An empty field gets its emptiness message. A non-empty field's message is "" exactly when it matches its pattern, and otherwise "Email is not valid" or the long password rule |
| `LoginValidation.FieldsIndependent` | frontend/src/LoginValidation.js:6-21 | The email message depends only on the email, and the password message only on the password |
| `LoginValidation.AcceptedIffBothMatch` | frontend/src/LoginValidation.js:6-22 | Both messages are empty exactly when both fields match their patterns |
| `LoginValidation.EmailExamples` | frontend/src/LoginValidation.js:3-11 | `a@b.co` passes; `a@b@c.d` and `a@b.` are "Email is not valid" |

## Left out

- HTTP requests, `useEffect` orchestration, `Promise.all` and loading flags. Server answers are parameters: probe results, POST outcomes, `fullyDispatched`, and fetched rows and item lists.
- Concurrency between sessions and responses arriving out of order. The backend's at-most-once guarantees for salary generation and payment are not visible here. The client's check-then-POST is not a race guard, so nothing is claimed about it.
- The debounced search and the one-second clock timer: timing only. Search results arriving is an event.
- JavaScript `Date` parsing, `toISOString`, time zones and locale formatting. List dates are calendar days ordered by key, the profile page's instants are a day plus a time of day, and "today" is a parameter.
- AllOrders.SortOrders: `new Date(x) - new Date(y)` is NaN for a missing or unparsable date, which makes the comparator inconsistent. Every list date is modelled as present.
- `parseFloat`, NaN, floats and `toFixed`. Amounts are integer cents. A currency field is blank, a number of cents, or unreadable (counting 0). Partial reads such as `parseFloat("12abc")` are not modelled.
- `Number(e.target.value)` for the leave fields: a fractional or non-numeric entry is not modelled, and the fields are integers.
- AllOrders.RemainingOrders: `paidAmount < itemPrice` is compared as numbers. If the server sent the amounts as strings, JavaScript would compare them as text and could keep or drop the wrong orders; that case is not modelled.
- AllOrders.TransactionCell: the server's amounts are compared as numbers. If the server sent them as strings, JavaScript would compare them as text; that case is not modelled.
- Home.ComputeMonthlyEarnings: `parseFloat(a) + parseFloat(b) === parseFloat(c)` is float equality and is modelled as integer equality.
- OrderProfile.HandleInputChange: only the date inputs are modelled. The handler's checkbox branch is reached by no rendered input; the item checkboxes have their own handlers.
- Object aliasing: the profile page mutates the shallow-copied item objects in place. The model builds fresh sequences.
- LoginValidation.PasswordShapeIsPattern: JavaScript measures length in UTF-16 code units and the model in characters. They differ only for characters outside the Basic Multilingual Plane.
- The Home page's total-orders and items-to-collect counters, the clock's weekday, month and year text, and navigation and routing: they display server values or perform I/O.
- Rendering, styling, alerts and console logging.
- The other pages (employee report, payroll dashboard, customer order list, login form wrapper, image modal): display or form plumbing outside the modelled core.

## Findings

| source | as written | input that shows it | evidently intended | confidence | as-written member | corrected member |
|---|---|---|---|---|---|---|
| frontend/src/AllOrders.js:49-53 | `handleSortChange` calls `sortOrders`, whose closure still reads the criterion from before `setSortCriteria` takes effect | Load two unsettled orders whose wedding dates and return dates run in opposite directions, then choose "Return Date": the list stays in wedding-date order | Sort by the criterion just chosen | high; not executed | `AllOrders.HandleSortChange` with `AllOrders.StaleCriterionCounterexample` | `AllOrders.HandleSortChangeFixed` with `AllOrders.FixedListingMatchesSelector` |
| frontend/src/Home.js:101 | New search results replace the old list, but `selectedIndex` is not reset | Results [Ann, Anna] on screen; type "ann"; press ArrowDown twice before the debounced fetch answers; the answer is [Ann]. The highlight is 1, so Enter or submit reads `.customerID` of `undefined` | Clear the highlight when the results change | medium; not executed | `Home.ResultsArrived` with `Home.StaleCursorCounterexample` | `Home.ResultsArrivedFixed` with `Home.RunNeverCrashes` |
