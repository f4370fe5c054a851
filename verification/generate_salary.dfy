/**
  The "Generate Salary" page as a state machine. Its inputs are the
  user's actions together with the server's answers to the requests each
  action makes (the "already generated" and "already paid" probes, and the
  replies to the two POSTs); its outputs are the new page state and the
  POST requests sent.
 */
module GenerateSalary {
  import opened Seqs

  /** The PIN the page compares against; it ships with the client. */
  const HardcodedPin := "1234"

  /** The year options: the current year and the five before it, newest first. */
  function YearOptions(currentYear: int): (years: seq<int>)
    ensures |years| == 6
    ensures years[0] == currentYear && years[5] == currentYear - 5
    ensures forall i, j :: 0 <= i < j < |years| ==> years[i] > years[j]
  {
    seq(6, i => currentYear - i)
  }

  /** The options are exactly the six years ending with the current one. */
  lemma YearOptionsCover(currentYear: int, y: int)
    ensures y in YearOptions(currentYear) <==> currentYear - 5 <= y <= currentYear
  {
    var years := YearOptions(currentYear);
    if currentYear - 5 <= y <= currentYear {
      assert years[currentYear - y] == y;
    }
  }

  /** The page's state variables. */
  datatype Page = Page(
    month: string,
    year: string,
    branch: string,
    employee: string,
    basicPayment: int,
    salary: int,
    totalLeave: int,
    leaveDeduction: int,
    netSalary: int,
    showNetSalary: bool,
    showPinPopup: bool,
    pin: string,
    errorMessage: string)

  const Initial := Page("", "", "", "", 0, 0, 0, 0, 0, false, false, "", "")

  /** The two POSTs the page can send. */
  datatype Request =
    | GenerateRequest(month: string, year: string, employeeId: string, basicPayment: int,
                      salary: int, totalLeave: int, leaveDeduction: int, netSalary: int)
    | PayRequest(month: string, year: string, employeeId: string, netSalary: int)

  /** Answer of `GET /payroll/checkSalaryGenerated`. */
  datatype GeneratedProbe = GeneratedProbeFailed | GeneratedAnswer(isGenerated: bool, message: string)

  /** Answer of `GET /payroll/checkSalaryPaid`. */
  datatype PaidProbe = PaidProbeFailed | PaidAnswer(isPaid: bool)

  /** Reply to a POST; a failure may carry a message from the server. */
  datatype PostReply = PostOk | PostFailed(serverMessage: Option<string>)

  datatype Outcome = Outcome(page: Page, requests: seq<Request>)

  const GenerateProbeError := "Error checking salary generation. Please try again."
  const GenerateDefaultError := "Error saving salary. Please try again."
  const PaidProbeError := "Error checking payment status."
  const PinError := "Incorrect PIN. Please try again."
  const PayError := "Error updating payment status."

  /** `salary - leaveDeduction`, as the effect and the generate handler compute it. */
  function NetOf(p: Page): int
  {
    p.salary - p.leaveDeduction
  }

  // ---------------------------------------------------------------------
  // Selections and inputs

  datatype Selector = MonthSelect | YearSelect | BranchSelect | EmployeeSelect

  function Selected(p: Page, s: Selector): string
  {
    match s
    case MonthSelect => p.month
    case YearSelect => p.year
    case BranchSelect => p.branch
    case EmployeeSelect => p.employee
  }

  /** Choosing a month, year, branch or employee stores it and clears the error message. */
  function HandleSelect(p: Page, s: Selector, value: string): (r: Page)
    ensures Selected(r, s) == value
    ensures forall t: Selector :: t != s ==> Selected(r, t) == Selected(p, t)
    ensures r.errorMessage == ""
    ensures r.(month := p.month, year := p.year, branch := p.branch, employee := p.employee, errorMessage := p.errorMessage) == p
  {
    match s
    case MonthSelect => p.(month := value, errorMessage := "")
    case YearSelect => p.(year := value, errorMessage := "")
    case BranchSelect => p.(branch := value, errorMessage := "")
    case EmployeeSelect => p.(employee := value, errorMessage := "")
  }

  /** The employee's details arrived: basic pay and salary are shown and the net salary follows. */
  function EmployeeLoaded(p: Page, basicPay: int, salary: int): (r: Page)
    ensures r.basicPayment == basicPay && r.salary == salary
    ensures r.netSalary == salary - p.leaveDeduction
    ensures r == p.(basicPayment := r.basicPayment, salary := r.salary, netSalary := r.netSalary)
  {
    p.(basicPayment := basicPay, salary := salary, netSalary := salary - p.leaveDeduction)
  }

  /** Editing the leave deduction; the net salary follows it. */
  function EnterLeaveDeduction(p: Page, deduction: int): (r: Page)
    ensures r.leaveDeduction == deduction && r.netSalary == p.salary - deduction
    ensures r == p.(leaveDeduction := r.leaveDeduction, netSalary := r.netSalary)
  {
    p.(leaveDeduction := deduction, netSalary := p.salary - deduction)
  }

  // ---------------------------------------------------------------------
  // Generate

  /**
    `handleGenerateSalary`: clear the error, compute the net salary, ask
    whether the period is generated, and only if it is not, POST the
    record with the net salary just computed.
   */
  function HandleGenerate(p: Page, probe: GeneratedProbe, reply: PostReply): (r: Outcome)
    ensures r.page.netSalary == p.salary - p.leaveDeduction
    ensures |r.requests| <= 1
    ensures |r.requests| == 1 <==> probe.GeneratedAnswer? && !probe.isGenerated
    ensures |r.requests| == 1 ==> r.requests[0] == GenerateRequest(p.month, p.year, p.employee, p.basicPayment,
                                                                  p.salary, p.totalLeave, p.leaveDeduction,
                                                                  p.salary - p.leaveDeduction)
    ensures probe.GeneratedAnswer? && probe.isGenerated ==> r.page.errorMessage == probe.message
    ensures probe == GeneratedProbeFailed ==> r.page.errorMessage == GenerateProbeError
    ensures r.page.showNetSalary <==> p.showNetSalary || (|r.requests| == 1 && reply == PostOk)
    ensures |r.requests| == 1 && reply == PostOk ==> r.page.errorMessage == ""
    ensures |r.requests| == 1 && reply.PostFailed? ==>
              r.page.errorMessage == (if reply.serverMessage.Some? && reply.serverMessage.value != ""
                                      then reply.serverMessage.value else GenerateDefaultError)
    ensures r.page == p.(netSalary := r.page.netSalary, showNetSalary := r.page.showNetSalary, errorMessage := r.page.errorMessage)
  {
    var net := p.salary - p.leaveDeduction;
    var cleared := p.(errorMessage := "", netSalary := net);
    match probe
    case GeneratedProbeFailed => Outcome(cleared.(errorMessage := GenerateProbeError), [])
    case GeneratedAnswer(isGenerated, message) =>
      if isGenerated then
        Outcome(cleared.(errorMessage := message), [])
      else
        var request := GenerateRequest(p.month, p.year, p.employee, p.basicPayment, p.salary,
                                       p.totalLeave, p.leaveDeduction, net);
        match reply
        case PostOk => Outcome(cleared.(showNetSalary := true), [request])
        case PostFailed(m) =>
          Outcome(cleared.(errorMessage := if m.Some? && m.value != "" then m.value else GenerateDefaultError), [request])
  }

  // ---------------------------------------------------------------------
  // Pay

  /** `handlePaySalary`: an already paid period is reported; otherwise the PIN popup opens. */
  function HandlePay(p: Page, probe: PaidProbe): (r: Page)
    ensures probe == PaidAnswer(true) ==> r == p.(errorMessage := "Salary is already paid for " + p.month + ".")
    ensures probe == PaidAnswer(false) ==> r == p.(showPinPopup := true)
    ensures probe == PaidProbeFailed ==> r == p.(errorMessage := PaidProbeError)
    ensures r.showPinPopup <==> p.showPinPopup || probe == PaidAnswer(false)
  {
    match probe
    case PaidProbeFailed => p.(errorMessage := PaidProbeError)
    case PaidAnswer(isPaid) =>
      if isPaid then p.(errorMessage := "Salary is already paid for " + p.month + ".")
      else p.(showPinPopup := true)
  }

  /**
    `handlePinSubmit`: only the hard-coded PIN sends the payment, with the
    net salary held in the page state; success closes the popup.
   */
  function HandlePinSubmit(p: Page, reply: PostReply): (r: Outcome)
    ensures |r.requests| == 1 <==> p.pin == HardcodedPin
    ensures |r.requests| != 1 ==> r.requests == []
    ensures p.pin == HardcodedPin ==> r.requests == [PayRequest(p.month, p.year, p.employee, p.netSalary)]
    ensures p.pin != HardcodedPin ==> r.page == p.(errorMessage := PinError)
    ensures p.pin == HardcodedPin && reply == PostOk ==> r.page == p.(showPinPopup := false)
    ensures p.pin == HardcodedPin && reply.PostFailed? ==> r.page == p.(errorMessage := PayError)
  {
    if p.pin == HardcodedPin then
      var request := PayRequest(p.month, p.year, p.employee, p.netSalary);
      match reply
      case PostOk => Outcome(p.(showPinPopup := false), [request])
      case PostFailed(_) => Outcome(p.(errorMessage := PayError), [request])
    else
      Outcome(p.(errorMessage := PinError), [])
  }

  // ---------------------------------------------------------------------
  // The page as a whole

  datatype Event =
    | Select(selector: Selector, value: string)
    | DetailsLoaded(basicPay: int, salary: int)
    | EnterTotalLeave(totalLeave: int)
    | EnterDeduction(deduction: int)
    | Generate(probe: GeneratedProbe, reply: PostReply)
    | Pay(paidProbe: PaidProbe)
    | EnterPin(pin: string)
    | SubmitPin(reply: PostReply)
    | CancelPin

  /**
    Whether the control behind an event is on screen and usable: the form
    submits only with the four required selections made, the "Paid" button
    shows with the net salary, and the PIN controls with the popup.
   */
  predicate Enabled(p: Page, e: Event): (ok: bool)
    ensures e.Select? || e.DetailsLoaded? || e.EnterTotalLeave? || e.EnterDeduction? ==> ok
    ensures p == Initial ==> (ok <==> !(e.Generate? || e.Pay? || e.EnterPin? || e.SubmitPin? || e.CancelPin?))
    ensures ok && e.Generate? ==> p.month != "" && p.year != "" && p.branch != "" && p.employee != ""
    ensures ok && e.Pay? ==> p.showNetSalary
    ensures ok && (e.EnterPin? || e.SubmitPin? || e.CancelPin?) ==> p.showPinPopup
  {
    match e
    case Generate(_, _) => p.month != "" && p.year != "" && p.branch != "" && p.employee != ""
    case Pay(_) => p.showNetSalary
    case EnterPin(_) => p.showPinPopup
    case SubmitPin(_) => p.showPinPopup
    case CancelPin => p.showPinPopup
    case _ => true
  }

  /** One event on the page: a control that is not usable does nothing, and a step sends at most one POST. */
  function Step(p: Page, e: Event): (r: Outcome)
    ensures !Enabled(p, e) ==> r == Outcome(p, [])
    ensures |r.requests| <= 1
    ensures |r.requests| == 1 ==> (e.Generate? && r.requests[0].GenerateRequest?) || (e.SubmitPin? && r.requests[0].PayRequest?)
    ensures |r.requests| == 1 && r.requests[0].PayRequest? ==> p.showPinPopup && p.pin == HardcodedPin
  {
    if !Enabled(p, e) then Outcome(p, [])
    else
      match e
      case Select(s, v) => Outcome(HandleSelect(p, s, v), [])
      case DetailsLoaded(b, s) => Outcome(EmployeeLoaded(p, b, s), [])
      case EnterTotalLeave(n) => Outcome(p.(totalLeave := n), [])
      case EnterDeduction(d) => Outcome(EnterLeaveDeduction(p, d), [])
      case Generate(probe, reply) => HandleGenerate(p, probe, reply)
      case Pay(probe) => Outcome(HandlePay(p, probe), [])
      case EnterPin(pin) => Outcome(p.(pin := pin), [])
      case SubmitPin(reply) => HandlePinSubmit(p, reply)
      case CancelPin => Outcome(p.(showPinPopup := false), [])
  }

  /** The page after a sequence of events, with every POST sent on the way. */
  function Run(p: Page, events: seq<Event>): (r: Outcome)
    ensures events == [] ==> r == Outcome(p, [])
    ensures |r.requests| <= |events|
    decreases |events|
  {
    if |events| == 0 then Outcome(p, [])
    else
      var first := Step(p, events[0]);
      var rest := Run(first.page, events[1..]);
      Outcome(rest.page, first.requests + rest.requests)
  }

  /** The displayed net salary always equals salary minus leave deduction. */
  predicate NetConsistent(p: Page)
  {
    p.netSalary == p.salary - p.leaveDeduction
  }

  /** Popup and net salary are only ever shown in this order. */
  predicate ScreensOrdered(p: Page)
  {
    p.showPinPopup ==> p.showNetSalary
  }

  /** Every step keeps the net salary consistent, and a payment carries the page's net salary. */
  lemma StepPreserves(p: Page, e: Event)
    requires NetConsistent(p)
    ensures NetConsistent(Step(p, e).page)
    ensures forall k :: 0 <= k < |Step(p, e).requests| && Step(p, e).requests[k].PayRequest? ==>
              Step(p, e).requests[k].netSalary == NetOf(p)
  {
  }

  /** A payment is only sent from the popup, and the net salary only appears through a generate request. */
  lemma StepRequests(p: Page, e: Event)
    ensures forall k :: 0 <= k < |Step(p, e).requests| && Step(p, e).requests[k].PayRequest? ==> p.showPinPopup
    ensures Step(p, e).page.showNetSalary && !p.showNetSalary ==>
              |Step(p, e).requests| == 1 && Step(p, e).requests[0].GenerateRequest?
    ensures ScreensOrdered(p) ==> ScreensOrdered(Step(p, e).page)
  {
  }

  /** No generate request was sent before a given point. */
  predicate NoGenerateIn(reqs: seq<Request>)
  {
    forall j :: 0 <= j < |reqs| ==> !reqs[j].GenerateRequest?
  }

  /** Every payment request comes after some generate request. */
  predicate PayAfterGenerate(reqs: seq<Request>)
  {
    forall k :: 0 <= k < |reqs| && reqs[k].PayRequest? ==> !NoGenerateIn(reqs[..k])
  }

  /** Before any generate request, the net salary is not shown (so neither is the popup). */
  predicate HistoryAgrees(p: Page, history: seq<Request>)
  {
    ScreensOrdered(p) && (p.showNetSalary ==> !NoGenerateIn(history))
  }

  lemma {:induction false} RunKeepsHistory(p: Page, history: seq<Request>, events: seq<Event>)
    requires HistoryAgrees(p, history) && PayAfterGenerate(history)
    ensures PayAfterGenerate(history + Run(p, events).requests)
    decreases |events|
  {
    if |events| > 0 {
      var first := Step(p, events[0]);
      var h1 := history + first.requests;
      StepRequests(p, events[0]);
      assert PayAfterGenerate(h1) && HistoryAgrees(first.page, h1) by {
        forall k | 0 <= k < |h1| && h1[k].PayRequest?
          ensures !NoGenerateIn(h1[..k])
        {
          if k < |history| {
            assert h1[..k] == history[..k];
          } else {
            // a payment is only sent from the popup, which needs the net salary on screen
            assert h1[k] == first.requests[k - |history|];
            assert p.showNetSalary;
            assert h1[..k][..|history|] == history;
            var j :| 0 <= j < |history| && history[j].GenerateRequest?;
            assert h1[..k][j] == history[j];
          }
        }
        if first.page.showNetSalary && !p.showNetSalary {
          assert first.requests[0].GenerateRequest?;
          assert h1[|history|] == first.requests[0];
        } else if first.page.showNetSalary {
          var j :| 0 <= j < |history| && history[j].GenerateRequest?;
          assert h1[j] == history[j];
        }
      }
      RunKeepsHistory(first.page, h1, events[1..]);
      assert h1 + Run(first.page, events[1..]).requests == history + Run(p, events).requests;
    } else {
      assert history + Run(p, events).requests == history;
    }
  }

  /** In any session started fresh, a payment is never requested before a salary generation was requested. */
  lemma PaymentFollowsGeneration(events: seq<Event>)
    ensures PayAfterGenerate(Run(Initial, events).requests)
  {
    RunKeepsHistory(Initial, [], events);
    assert [] + Run(Initial, events).requests == Run(Initial, events).requests;
  }

  /** However a session goes on, the net salary shown stays salary minus leave deduction. */
  lemma {:induction false} RunKeepsNetConsistent(p: Page, events: seq<Event>)
    requires NetConsistent(p)
    ensures NetConsistent(Run(p, events).page)
    decreases |events|
  {
    if |events| > 0 {
      StepPreserves(p, events[0]);
      RunKeepsNetConsistent(Step(p, events[0]).page, events[1..]);
    }
  }

  /** A run is its first step followed by the run of the rest. */
  lemma RunFirst(p: Page, e: Event, rest: seq<Event>)
    ensures Run(p, [e] + rest).requests == Step(p, e).requests + Run(Step(p, e).page, rest).requests
  {
    assert ([e] + rest)[1..] == rest;
  }

  /** The generate step of the example sessions below. */
  lemma EditedSessionSteps(p: Page)
    requires p.month != "" && p.year != "" && p.branch != "" && p.employee != ""
    ensures var s1 := Step(p, Generate(GeneratedAnswer(false, ""), PostOk));
            && s1.page.showNetSalary && |s1.requests| == 1
            && s1.requests[0].GenerateRequest? && s1.requests[0].employeeId == p.employee
            && s1.requests[0].netSalary == NetOf(p)
            && s1.page.salary == p.salary && s1.page.leaveDeduction == p.leaveDeduction
  {
  }

  /** Paying from a page showing the net salary: the popup opens, the PIN is typed, and the payment goes out. */
  lemma PayWithPinSteps(q: Page)
    requires q.showNetSalary
    ensures var s3 := Step(q, Pay(PaidAnswer(false)));
            var s4 := Step(s3.page, EnterPin(HardcodedPin));
            var s5 := Step(s4.page, SubmitPin(PostOk));
            s3.requests == [] && s4.requests == [] && s5.requests == [PayRequest(q.month, q.year, q.employee, q.netSalary)]
  {
    var s3 := Step(q, Pay(PaidAnswer(false)));
    assert s3.page == q.(showPinPopup := true);
    var s4 := Step(s3.page, EnterPin(HardcodedPin));
    assert s4.page == s3.page.(pin := HardcodedPin);
  }

  /** Steps `e1 .. e5` one at a time make up the run of all five. */
  lemma RunOfFive(p: Page, e1: Event, e2: Event, e3: Event, e4: Event, e5: Event)
    ensures var s1 := Step(p, e1);
            var s2 := Step(s1.page, e2);
            var s3 := Step(s2.page, e3);
            var s4 := Step(s3.page, e4);
            var s5 := Step(s4.page, e5);
            Run(p, [e1, e2, e3, e4, e5]).requests
              == s1.requests + (s2.requests + (s3.requests + (s4.requests + (s5.requests + []))))
  {
    var s1 := Step(p, e1);
    var s2 := Step(s1.page, e2);
    var s3 := Step(s2.page, e3);
    var s4 := Step(s3.page, e4);
    RunFirst(s4.page, e5, []);
    RunFirst(s3.page, e4, [e5]);
    RunFirst(s2.page, e3, [e4, e5]);
    RunFirst(s1.page, e2, [e3, e4, e5]);
    RunFirst(p, e1, [e2, e3, e4, e5]);
    assert [e1, e2, e3, e4, e5] == [e1] + [e2, e3, e4, e5];
    assert [e2, e3, e4, e5] == [e2] + [e3, e4, e5];
    assert [e3, e4, e5] == [e3] + [e4, e5];
    assert [e4, e5] == [e4] + [e5];
    assert [e5] == [e5] + [];
  }

  /**
    The amount paid follows later edits: generating with one leave
    deduction and then changing it before paying sends the new net salary,
    not the one that was generated.
   */
  lemma PaidNetFollowsLaterEdits(p: Page)
    requires p.month != "" && p.year != "" && p.branch != "" && p.employee != ""
    ensures var reqs := Run(p, [Generate(GeneratedAnswer(false, ""), PostOk),
                                EnterDeduction(p.leaveDeduction + 100),
                                Pay(PaidAnswer(false)),
                                EnterPin("1234"),
                                SubmitPin(PostOk)]).requests;
            |reqs| == 2 && reqs[0].netSalary == NetOf(p) && reqs[1].netSalary == NetOf(p) - 100
  {
    var e1, e2 := Generate(GeneratedAnswer(false, ""), PostOk), EnterDeduction(p.leaveDeduction + 100);
    EditedSessionSteps(p);
    var s1 := Step(p, e1);
    var s2 := Step(s1.page, e2);
    assert s2.page == EnterLeaveDeduction(s1.page, p.leaveDeduction + 100) && s2.requests == [];
    PayWithPinSteps(s2.page);
    RunOfFive(p, e1, e2, Pay(PaidAnswer(false)), EnterPin("1234"), SubmitPin(PostOk));
  }

  /**
    Generation and payment are tied only by the order of the requests, not
    by the employee: generating for one employee, then choosing another and
    paying, sends a payment for an employee whose salary was never generated.
   */
  lemma PaymentMayNameAnotherEmployee(p: Page, other: string)
    requires p.month != "" && p.year != "" && p.branch != "" && p.employee != ""
    requires other != p.employee
    ensures var reqs := Run(p, [Generate(GeneratedAnswer(false, ""), PostOk),
                                Select(EmployeeSelect, other),
                                Pay(PaidAnswer(false)),
                                EnterPin("1234"),
                                SubmitPin(PostOk)]).requests;
            && |reqs| == 2
            && reqs[0].GenerateRequest? && reqs[0].employeeId == p.employee
            && reqs[1].PayRequest? && reqs[1].employeeId == other
            && PayAfterGenerate(reqs)
  {
    var e1, e2 := Generate(GeneratedAnswer(false, ""), PostOk), Select(EmployeeSelect, other);
    EditedSessionSteps(p);
    var s1 := Step(p, e1);
    var s2 := Step(s1.page, e2);
    assert s2.page == s1.page.(employee := other, errorMessage := "") && s2.requests == [];
    PayWithPinSteps(s2.page);
    RunOfFive(p, e1, e2, Pay(PaidAnswer(false)), EnterPin("1234"), SubmitPin(PostOk));
  }
}
