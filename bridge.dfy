/** The HTTP-to-ledger bridge of `api/src/server.ts`: each route handler as a total function from the
    request's `amount` field and the outcomes the ledger clients report to the HTTP status, the JSON
    envelope sent back and the ledger calls made on the way. */
module Bridge {
  import opened Js

  datatype Route = Value | Increment | IncrementBy | Decrement | DecrementBy | Health

  /** The `amount` field of the parsed JSON body, as the handler's checks see it. */
  datatype Amount =
    | Absent                                    // no such field, or `null`
    | NotNumber(truthy: bool)                   // a string, boolean, array or object
    | Integer(value: int)                       // a finite Number with no fractional part
    | Fraction(text: string, positive: bool)    // a finite Number with a fractional part; `text` is `${amount}`
    | Infinite(positive: bool)                  // a literal too large for a double parses to ±Infinity
    | NotANumber                                // NaN: the guard handles it, though JSON cannot denote it

  /** The error object a client call throws; "" stands for a property that is absent or empty. */
  datatype Failure = Failure(message: string, shortMessage: string)

  datatype ReadOutcome = ReadOk(value: nat) | ReadFailed(readError: Failure)
  datatype SubmitOutcome = Submitted(hash: string) | SubmitFailed(submitError: Failure)
  datatype TxStatus = Succeeded | Reverted
  datatype ReceiptOutcome = Included(blockNumber: nat, status: TxStatus) | ReceiptFailed(receiptError: Failure)

  /** What the ledger answers to `readContract`, `writeContract` and `waitForTransactionReceipt`. */
  datatype Ledger = Ledger(read: ReadOutcome, submit: SubmitOutcome, receipt: ReceiptOutcome)

  /** A call the handler makes into the ledger clients. */
  datatype Call = ReadCounter | Write(functionName: string, args: seq<int>) | AwaitReceipt(hash: string)

  /** The JSON body of a response. */
  datatype Envelope =
    | ValueBody(value: string)                                                     // {success: true, value}
    | TxBody(transactionHash: string, blockNumber: string, status: string, amount: Option<int>)
                                                                                   // {success: true, ...}
    | ErrorBody(error: string)                                                     // {success: false, error}
    | HealthBody                                                                   // {status: "ok"}

  datatype Response = Response(status: nat, body: Envelope, calls: seq<Call>)

  const AmountError := "Amount must be a positive number"
  const AtZeroError := "Cannot decrement: counter is already at zero"
  const ReadFallback := "Failed to read counter value"
  const IncrementFallback := "Failed to increment counter"
  const IncrementByFallback := "Failed to increment counter by amount"
  const DecrementFallback := "Failed to decrement counter"
  const DecrementByFallback := "Failed to decrement counter by amount"
  const DecrementMarker := "cannot be decremented"
  const UnderflowMarker := "underflow"

  // ---------------------------------------------------------------------------
  // Amount validation

  /** JavaScript truthiness of the field. */
  predicate Truthy(a: Amount) {
    match a
    case Absent => false
    case NotNumber(t) => t
    case Integer(v) => v != 0
    case Fraction(_, _) => true
    case Infinite(_) => true
    case NotANumber => false
  }

  /** `typeof amount === "number"` */
  predicate IsNumber(a: Amount) {
    !a.Absent? && !a.NotNumber?
  }

  /** `amount <= 0` for a Number; every comparison with NaN is false. */
  predicate AtMostZero(a: Amount)
    requires IsNumber(a)
  {
    match a
    case Integer(v) => v <= 0
    case Fraction(_, positive) => !positive
    case Infinite(positive) => !positive
    case NotANumber => false
  }

  /** The guard `!amount || typeof amount !== "number" || amount <= 0`. */
  predicate RejectsAmount(a: Amount) {
    !Truthy(a) || !IsNumber(a) || AtMostZero(a)
  }

  /** The amounts the guard lets through, listed directly: the positive Numbers. */
  predicate PositiveNumber(a: Amount) {
    (a.Integer? && a.value > 0) || (a.Fraction? && a.positive) || a == Infinite(true)
  }

  /** The guard rejects exactly what is not a positive Number, so 0, NaN, negatives, strings and a
      missing field are all refused, while positive fractions and Infinity get through. */
  lemma GuardAdmitsPositiveNumbers(a: Amount)
    ensures !RejectsAmount(a) <==> PositiveNumber(a)
  {
  }

  /** `${amount}` for an amount that passed the guard. */
  function AmountText(a: Amount): string
    requires PositiveNumber(a)
  {
    match a
    case Integer(v) => IntText(v)
    case Fraction(text, _) => text
    case Infinite(_) => "Infinity"
  }

  /** The RangeError text `BigInt` throws for a Number that is not an integer (V8's wording). */
  function RangeMessage(text: string): string {
    "The number " + text + " cannot be converted to a BigInt because it is not an integer"
  }

  /** `BigInt(amount)` for an amount that passed the guard: exact for integers, a RangeError otherwise. */
  function ToBigInt(a: Amount): Converted
    requires PositiveNumber(a)
  {
    if a.Integer? then Exact(a.value) else Thrown(Failure(RangeMessage(AmountText(a)), ""))
  }

  datatype Converted = Exact(value: int) | Thrown(error: Failure)

  // ---------------------------------------------------------------------------
  // Submission, confirmation and error text

  /** `x || y` on strings. */
  function Or(x: string, y: string): string {
    if x != "" then x else y
  }

  /** How the `try` block of a write handler ends after validation. */
  datatype Transaction = Confirmed(hash: string, blockNumber: nat, status: TxStatus) | Threw(error: Failure)

  /** `writeContract`, then, only when it returned a hash, `waitForTransactionReceipt` for that hash. */
  function Transact(ledger: Ledger): Transaction
  {
    match ledger.submit
    case SubmitFailed(e) => Threw(e)
    case Submitted(hash) =>
      match ledger.receipt
      case Included(b, status) => Confirmed(hash, b, status)
      case ReceiptFailed(e) => Threw(e)
  }

  /** The ledger calls of a write: the submission, then the receipt wait for the hash it returned. */
  function TransactCalls(functionName: string, args: seq<int>, ledger: Ledger): seq<Call> {
    [Write(functionName, args)] + if ledger.submit.Submitted? then [AwaitReceipt(ledger.submit.hash)] else []
  }

  /** The receipt's `status` field as viem reports it. */
  function StatusText(s: TxStatus): string {
    match s
    case Succeeded => "success"
    case Reverted => "reverted"
  }

  /** The success envelope of a write: hash from the submission, block number in decimal from the receipt. */
  function SuccessBody(t: Transaction, amount: Option<int>): Envelope
    requires t.Confirmed?
  {
    TxBody(t.hash, Decimal(t.blockNumber), StatusText(t.status), amount)
  }

  /** `error.message || error.shortMessage || fallback`, as the decrement handlers pick it. */
  function ErrorText(e: Failure, fallback: string): string {
    Or(e.message, Or(e.shortMessage, fallback))
  }

  /** `text.includes("cannot be decremented") || text.includes("underflow")` */
  predicate IsUnderflow(text: string) {
    Contains(text, DecrementMarker) || Contains(text, UnderflowMarker)
  }

  // ---------------------------------------------------------------------------
  // Handlers

  /** GET /value */
  function ValueHandler(ledger: Ledger): Response {
    match ledger.read
    case ReadOk(v) => Response(200, ValueBody(Decimal(v)), [ReadCounter])
    case ReadFailed(e) => Response(500, ErrorBody(Or(e.message, ReadFallback)), [ReadCounter])
  }

  /** POST /increment */
  function IncrementHandler(ledger: Ledger): Response {
    var calls := TransactCalls("inc", [], ledger);
    match Transact(ledger)
    case Threw(e) => Response(500, ErrorBody(Or(e.message, IncrementFallback)), calls)
    case Confirmed(_, _, _) => Response(200, SuccessBody(Transact(ledger), None), calls)
  }

  /** POST /increment-by */
  function IncrementByHandler(amount: Amount, ledger: Ledger): Response {
    if RejectsAmount(amount) then Response(400, ErrorBody(AmountError), [])
    else
      match ToBigInt(amount)
      case Thrown(e) => Response(500, ErrorBody(Or(e.message, IncrementByFallback)), [])
      case Exact(n) =>
        var calls := TransactCalls("incBy", [n], ledger);
        match Transact(ledger)
        case Threw(e) => Response(500, ErrorBody(Or(e.message, IncrementByFallback)), calls)
        case Confirmed(_, _, _) => Response(200, SuccessBody(Transact(ledger), Some(amount.value)), calls)
  }

  /** POST /decrement */
  function DecrementHandler(ledger: Ledger): Response {
    var calls := TransactCalls("dec", [], ledger);
    match Transact(ledger)
    case Threw(e) =>
      var text := ErrorText(e, DecrementFallback);
      if IsUnderflow(text) then Response(400, ErrorBody(AtZeroError), calls)
      else Response(500, ErrorBody(text), calls)
    case Confirmed(_, _, _) => Response(200, SuccessBody(Transact(ledger), None), calls)
  }

  /** The 400 message of /decrement-by on an underflow, naming the requested amount. */
  function BelowZeroError(amount: Amount): string
    requires PositiveNumber(amount)
  {
    "Cannot decrement by " + AmountText(amount) + ": counter would go below zero"
  }

  /** The `catch` block of /decrement-by: a 400 naming the amount on an underflow, a 500 otherwise. */
  function DecrementByFailure(amount: Amount, e: Failure, calls: seq<Call>): Response
    requires PositiveNumber(amount)
  {
    var text := ErrorText(e, DecrementByFallback);
    if IsUnderflow(text) then Response(400, ErrorBody(BelowZeroError(amount)), calls)
    else Response(500, ErrorBody(text), calls)
  }

  /** POST /decrement-by, with the amount in scope in its `catch` block. */
  function DecrementByHandler(amount: Amount, ledger: Ledger): Response {
    if RejectsAmount(amount) then Response(400, ErrorBody(AmountError), [])
    else
      match ToBigInt(amount)
      case Thrown(e) => DecrementByFailure(amount, e, [])
      case Exact(n) =>
        var calls := TransactCalls("decBy", [n], ledger);
        match Transact(ledger)
        case Threw(e) => DecrementByFailure(amount, e, calls)
        case Confirmed(_, _, _) => Response(200, SuccessBody(Transact(ledger), Some(amount.value)), calls)
  }

  /** GET /health */
  function HealthHandler(): Response {
    Response(200, HealthBody, [])
  }

  /** Dispatch of a request to its route's handler. */
  function Handle(route: Route, amount: Amount, ledger: Ledger): Response {
    match route
    case Value => ValueHandler(ledger)
    case Increment => IncrementHandler(ledger)
    case IncrementBy => IncrementByHandler(amount, ledger)
    case Decrement => DecrementHandler(ledger)
    case DecrementBy => DecrementByHandler(amount, ledger)
    case Health => HealthHandler()
  }

  // ---------------------------------------------------------------------------
  // Properties

  predicate TakesAmount(route: Route) {
    route == IncrementBy || route == DecrementBy
  }

  predicate IsWrite(route: Route) {
    route == Increment || route == IncrementBy || route == Decrement || route == DecrementBy
  }

  /** Whether a write route gets as far as `writeContract`. */
  predicate Submits(route: Route, amount: Amount) {
    route == Increment || route == Decrement || (TakesAmount(route) && amount.Integer? && amount.value > 0)
  }

  function FunctionName(route: Route): string
    requires IsWrite(route)
  {
    match route
    case Increment => "inc"
    case IncrementBy => "incBy"
    case Decrement => "dec"
    case DecrementBy => "decBy"
  }

  /** The arguments a submitting write route passes to its contract function. */
  function WriteArgs(route: Route, amount: Amount): seq<int>
    requires IsWrite(route) && Submits(route, amount)
  {
    if TakesAmount(route) then [amount.value] else []
  }

  /** The `amount` a submitting write route echoes in its success envelope. */
  function Echo(route: Route, amount: Amount): Option<int>
    requires IsWrite(route) && Submits(route, amount)
  {
    if TakesAmount(route) then Some(amount.value) else None
  }

  /** The shape all four write handlers share: when the route gets as far as `writeContract`, its
      calls are the transaction's and it succeeds exactly when the transaction was confirmed, with
      the success envelope of that confirmation; otherwise it calls nothing and does not succeed. */
  predicate WriteShaped(r: Response, route: Route, amount: Amount, ledger: Ledger)
    requires IsWrite(route)
  {
    if Submits(route, amount) then
      && r.calls == TransactCalls(FunctionName(route), WriteArgs(route, amount), ledger)
      && (r.status == 200 <==> Transact(ledger).Confirmed?)
      && (r.status == 200 ==> r.body == SuccessBody(Transact(ledger), Echo(route, amount)))
    else
      r.calls == [] && r.status != 200
  }

  lemma IncrementShaped(amount: Amount, ledger: Ledger)
    ensures WriteShaped(IncrementHandler(ledger), Increment, amount, ledger)
  {
  }

  lemma IncrementByShaped(amount: Amount, ledger: Ledger)
    ensures WriteShaped(IncrementByHandler(amount, ledger), IncrementBy, amount, ledger)
  {
  }

  lemma DecrementShaped(amount: Amount, ledger: Ledger)
    ensures WriteShaped(DecrementHandler(ledger), Decrement, amount, ledger)
  {
  }

  lemma DecrementByShaped(amount: Amount, ledger: Ledger)
    ensures WriteShaped(DecrementByHandler(amount, ledger), DecrementBy, amount, ledger)
  {
    if !RejectsAmount(amount) {
      DecrementByPaths(amount, ledger);
    }
  }

  /** The two ways /decrement-by goes on after validation: conversion fails, or the transaction runs. */
  lemma DecrementByPaths(amount: Amount, ledger: Ledger)
    requires !RejectsAmount(amount)
    ensures amount.Integer? ==>
              var calls := TransactCalls("decBy", [amount.value], ledger);
              DecrementByHandler(amount, ledger) ==
                match Transact(ledger)
                case Threw(e) => DecrementByFailure(amount, e, calls)
                case Confirmed(_, _, _) => Response(200, SuccessBody(Transact(ledger), Some(amount.value)), calls)
    ensures !amount.Integer? ==>
              DecrementByHandler(amount, ledger) == DecrementByFailure(amount, Failure(RangeMessage(AmountText(amount)), ""), [])
    ensures var r := DecrementByHandler(amount, ledger);
            && (r.status == 200 || r.status == 400 || r.status == 500)
            && (r.status == 400 ==> r.body == ErrorBody(BelowZeroError(amount)))
  {
  }

  lemma WriteShape(route: Route, amount: Amount, ledger: Ledger)
    requires IsWrite(route)
    ensures WriteShaped(Handle(route, amount, ledger), route, amount, ledger)
  {
    match route {
      case Increment => IncrementShaped(amount, ledger);
      case IncrementBy => IncrementByShaped(amount, ledger);
      case Decrement => DecrementShaped(amount, ledger);
      case DecrementBy => DecrementByShaped(amount, ledger);
    }
  }

  /** The calls a handler may make, in order: none, one read, or one write followed by the receipt
      wait exactly when the write returned a hash — and then for that hash. */
  predicate Ordered(calls: seq<Call>, ledger: Ledger) {
    || calls == []
    || calls == [ReadCounter]
    || (&& |calls| >= 1
        && calls[0].Write?
        && calls[1..] == if ledger.submit.Submitted? then [AwaitReceipt(ledger.submit.hash)] else [])
  }

  /** Every handler reads at most once, writes at most once, and awaits a receipt only after the
      submission that produced the hash it waits for. */
  lemma CallsOrdered(route: Route, amount: Amount, ledger: Ledger)
    ensures Ordered(Handle(route, amount, ledger).calls, ledger)
    ensures Handle(route, amount, ledger).calls != [] && Handle(route, amount, ledger).calls[0].Write?
            <==> IsWrite(route) && Submits(route, amount)
  {
    if IsWrite(route) {
      WriteShape(route, amount, ledger);
    }
  }

  /** An amount the guard refuses gets a 400 with the validation message and no ledger call; no
      other case of the amount routes produces that reply. */
  lemma {:induction false} AmountValidation(route: Route, amount: Amount, ledger: Ledger)
    requires TakesAmount(route)
    ensures Handle(route, amount, ledger) == Response(400, ErrorBody(AmountError), []) <==> RejectsAmount(amount)
  {
    if !RejectsAmount(amount) && route == DecrementBy {
      DecrementByPaths(amount, ledger);
      // The underflow message starts with "Cannot", the validation message with "Amount".
      assert BelowZeroError(amount)[0] == 'C' != AmountError[0];
    }
  }

  /** A validated integer amount is the argument of the submitted write, and the success envelope
      echoes it. */
  lemma WriteCarriesAmount(route: Route, n: int, ledger: Ledger)
    requires TakesAmount(route) && n > 0
    ensures Handle(route, Integer(n), ledger).calls[0] == Write(FunctionName(route), [n])
    ensures Handle(route, Integer(n), ledger).status == 200 ==> Handle(route, Integer(n), ledger).body.amount == Some(n)
  {
    WriteShape(route, Integer(n), ledger);
  }

  /** A positive amount that is not an integer passes the guard but fails in `BigInt` before
      `writeContract`: no ledger call, no success, and /increment-by answers 500 with the RangeError. */
  lemma NonIntegerNeverSubmitted(route: Route, amount: Amount, ledger: Ledger)
    requires TakesAmount(route) && PositiveNumber(amount) && !amount.Integer?
    ensures Handle(route, amount, ledger).calls == []
    ensures Handle(route, amount, ledger).status != 200
    ensures route == IncrementBy ==>
      Handle(route, amount, ledger) == Response(500, ErrorBody(RangeMessage(AmountText(amount))), [])
  {
    if route == DecrementBy {
      DecrementByPaths(amount, ledger);
    } else {
      var text := RangeMessage(AmountText(amount));
      assert text != "" by {
        assert |text| >= |"The number "|;
      }
      assert IncrementByHandler(amount, ledger) == Response(500, ErrorBody(Or(text, IncrementByFallback)), []);
    }
  }

  /** A write succeeds exactly when it was submitted and its receipt arrived; then the envelope holds
      the submitted hash, the receipt's block number in decimal and its status, and nothing else
      is fabricated. */
  lemma {:induction false} SuccessIffConfirmed(route: Route, amount: Amount, ledger: Ledger)
    requires IsWrite(route)
    ensures Handle(route, amount, ledger).status == 200
            <==> Submits(route, amount) && ledger.submit.Submitted? && ledger.receipt.Included?
    ensures var r := Handle(route, amount, ledger);
            r.status == 200 ==>
              && r.body.TxBody?
              && r.body.transactionHash == ledger.submit.hash
              && r.body.status == StatusText(ledger.receipt.status)
              && DigitsBelow(r.body.blockNumber, 10)
              && DigitsValue(r.body.blockNumber, 10) == ledger.receipt.blockNumber
              && r.calls == [Write(FunctionName(route), r.calls[0].args), AwaitReceipt(ledger.submit.hash)]
              && (r.body.amount.Some? <==> TakesAmount(route))
  {
    WriteShape(route, amount, ledger);
    if Handle(route, amount, ledger).status == 200 {
      DecimalRoundTrip(ledger.receipt.blockNumber);
    }
  }

  /** /decrement consults `message`, then `shortMessage`, then its default, and answers 400 with the
      at-zero message exactly when that text names an underflow; any other failure is a 500 with it. */
  lemma DecrementClassifies(amount: Amount, ledger: Ledger)
    requires Transact(ledger).Threw?
    ensures var text := ErrorText(Transact(ledger).error, DecrementFallback);
            var r := Handle(Decrement, amount, ledger);
            && (r.status == 400 <==> IsUnderflow(text))
            && (r.status == 400 ==> r.body == ErrorBody(AtZeroError))
            && (r.status != 400 ==> r == Response(500, ErrorBody(text), r.calls))
  {
  }

  /** /decrement-by answers 400 naming the amount exactly when the caught error names an underflow,
      and 500 with the raw text otherwise. */
  lemma DecrementByClassifies(n: int, ledger: Ledger)
    requires n > 0 && Transact(ledger).Threw?
    ensures var text := ErrorText(Transact(ledger).error, DecrementByFallback);
            var r := Handle(DecrementBy, Integer(n), ledger);
            && (r.status == 400 <==> IsUnderflow(text))
            && (r.status == 400 ==> r.body == ErrorBody("Cannot decrement by " + IntText(n) + ": counter would go below zero"))
            && (r.status != 400 ==> r == Response(500, ErrorBody(text), r.calls))
  {
  }

  /** Either marker anywhere in the error text classifies it as an underflow. */
  lemma MarkerAnywhereIsUnderflow(before: string, after: string)
    ensures IsUnderflow(before + UnderflowMarker + after)
    ensures IsUnderflow(before + DecrementMarker + after)
  {
    ContainsInside(before, UnderflowMarker, after);
    ContainsInside(before, DecrementMarker, after);
  }

  /** Two ledgers that differ at most in the `shortMessage` of their errors. */
  predicate SameUpToShortMessage(l1: Ledger, l2: Ledger) {
    && (l1.read.ReadOk? <==> l2.read.ReadOk?)
    && (l1.read.ReadOk? ==> l1.read == l2.read)
    && (l1.read.ReadFailed? ==> l1.read.readError.message == l2.read.readError.message)
    && (l1.submit.Submitted? <==> l2.submit.Submitted?)
    && (l1.submit.Submitted? ==> l1.submit == l2.submit)
    && (l1.submit.SubmitFailed? ==> l1.submit.submitError.message == l2.submit.submitError.message)
    && (l1.receipt.Included? <==> l2.receipt.Included?)
    && (l1.receipt.Included? ==> l1.receipt == l2.receipt)
    && (l1.receipt.ReceiptFailed? ==> l1.receipt.receiptError.message == l2.receipt.receiptError.message)
  }

  /** /increment and /increment-by never answer 400 except for a refused amount, and never look at
      `shortMessage`; the same holds of /value. */
  lemma IncrementIgnoresShortMessage(amount: Amount, l1: Ledger, l2: Ledger)
    requires SameUpToShortMessage(l1, l2)
    ensures Handle(Increment, amount, l1) == Handle(Increment, amount, l2)
    ensures Handle(IncrementBy, amount, l1) == Handle(IncrementBy, amount, l2)
    ensures Handle(Value, amount, l1) == Handle(Value, amount, l2)
    ensures Handle(Increment, amount, l1).status in {200, 500}
    ensures Handle(IncrementBy, amount, l1).status == 400 <==> RejectsAmount(amount)
  {
  }

  /** /decrement, in contrast, falls back to `shortMessage` when `message` is empty, and classifies
      that text like any other. */
  lemma DecrementReadsShortMessage(amount: Amount, ledger: Ledger)
    requires ledger.submit.SubmitFailed? || ledger.receipt.ReceiptFailed?
    requires var e := if ledger.submit.SubmitFailed? then ledger.submit.submitError else ledger.receipt.receiptError;
             e.message == ""
    ensures var e := if ledger.submit.SubmitFailed? then ledger.submit.submitError else ledger.receipt.receiptError;
            var text := if e.shortMessage != "" then e.shortMessage else DecrementFallback;
            var calls := [Write("dec", [])] + if ledger.submit.Submitted? then [AwaitReceipt(ledger.submit.hash)] else [];
            Handle(Decrement, amount, ledger)
            == if IsUnderflow(text) then Response(400, ErrorBody(AtZeroError), calls)
               else Response(500, ErrorBody(text), calls)
  {
  }

  /** Every failed submission or receipt wait on /increment answers 500 with the error's `message`,
      or the route's default when it is empty, after the calls that were made. */
  lemma IncrementFailureReply(amount: Amount, ledger: Ledger)
    requires ledger.submit.SubmitFailed? || ledger.receipt.ReceiptFailed?
    ensures var e := if ledger.submit.SubmitFailed? then ledger.submit.submitError else ledger.receipt.receiptError;
            var calls := [Write("inc", [])] + if ledger.submit.Submitted? then [AwaitReceipt(ledger.submit.hash)] else [];
            Handle(Increment, amount, ledger)
            == Response(500, ErrorBody(if e.message != "" then e.message else IncrementFallback), calls)
  {
  }

  /** The same for /increment-by with a validated integer amount. */
  lemma IncrementByFailureReply(n: int, ledger: Ledger)
    requires n > 0
    requires ledger.submit.SubmitFailed? || ledger.receipt.ReceiptFailed?
    ensures var e := if ledger.submit.SubmitFailed? then ledger.submit.submitError else ledger.receipt.receiptError;
            var calls := [Write("incBy", [n])] + if ledger.submit.Submitted? then [AwaitReceipt(ledger.submit.hash)] else [];
            Handle(IncrementBy, Integer(n), ledger)
            == Response(500, ErrorBody(if e.message != "" then e.message else IncrementByFallback), calls)
  {
  }

  /** GET /value makes exactly one read and reports its value in decimal, or a 500. */
  lemma ValueReports(amount: Amount, ledger: Ledger)
    ensures var r := Handle(Value, amount, ledger);
            && r.calls == [ReadCounter]
            && (r.status == 200 <==> ledger.read.ReadOk?)
            && (r.status == 200 ==> r.body.ValueBody? && DigitsBelow(r.body.value, 10)
                                    && DigitsValue(r.body.value, 10) == ledger.read.value)
            && (r.status != 200 ==> r == Response(500, ErrorBody(Or(ledger.read.readError.message, ReadFallback)), [ReadCounter]))
  {
    if ledger.read.ReadOk? {
      DecimalRoundTrip(ledger.read.value);
    }
  }

  /** GET /health answers `{status: "ok"}` whatever the request and whatever the ledger. */
  lemma HealthIndependent(a1: Amount, l1: Ledger, a2: Amount, l2: Ledger)
    ensures Handle(Health, a1, l1) == Handle(Health, a2, l2) == Response(200, HealthBody, [])
  {
  }

  // ---------------------------------------------------------------------------
  // /decrement-by as written

  /** A handler that either replies or rejects its promise without sending a response. */
  datatype Reply = Replied(response: Response) | Rejected(error: string)

  const AmountNotDefined := "ReferenceError: amount is not defined"

  /** The `catch` block of /decrement-by as written: the underflow branch's template literal names
      `amount`, a `const` of the `try` block that is out of scope here, so it throws. */
  function DecrementByCatchAsWritten(e: Failure, calls: seq<Call>): Reply {
    var text := ErrorText(e, DecrementByFallback);
    if IsUnderflow(text) then Rejected(AmountNotDefined) else Replied(Response(500, ErrorBody(text), calls))
  }

  /** POST /decrement-by as written. */
  function DecrementByAsWritten(amount: Amount, ledger: Ledger): Reply {
    if RejectsAmount(amount) then Replied(Response(400, ErrorBody(AmountError), []))
    else
      match ToBigInt(amount)
      case Thrown(e) => DecrementByCatchAsWritten(e, [])
      case Exact(n) =>
        var calls := TransactCalls("decBy", [n], ledger);
        match Transact(ledger)
        case Threw(e) => DecrementByCatchAsWritten(e, calls)
        case Confirmed(_, _, _) => Replied(Response(200, SuccessBody(Transact(ledger), Some(amount.value)), calls))
  }

  /** Off the underflow branch, the handler as written and the corrected one send the same reply. */
  lemma AsWrittenAgreesElsewhere(amount: Amount, ledger: Ledger)
    ensures var r := Handle(DecrementBy, amount, ledger);
            DecrementByAsWritten(amount, ledger) == Rejected(AmountNotDefined)
            || DecrementByAsWritten(amount, ledger) == Replied(r)
    ensures DecrementByAsWritten(amount, ledger).Rejected? <==>
            Handle(DecrementBy, amount, ledger).status == 400 && !RejectsAmount(amount)
  {
    if !RejectsAmount(amount) {
      DecrementByPaths(amount, ledger);
      if amount.Integer? {
        var calls := TransactCalls("decBy", [amount.value], ledger);
        match Transact(ledger) {
          case Threw(e) =>
            assert DecrementByAsWritten(amount, ledger) == DecrementByCatchAsWritten(e, calls);
          case Confirmed(_, _, _) =>
        }
      } else {
        var e := Failure(RangeMessage(AmountText(amount)), "");
        assert DecrementByAsWritten(amount, ledger) == DecrementByCatchAsWritten(e, []);
      }
    }
  }

  /** Every underflow the ledger reports to /decrement-by is lost as written: the handler throws from
      its `catch` block instead of sending the 400 that names the amount. */
  lemma AsWrittenLosesUnderflowReply(n: int, ledger: Ledger)
    requires n > 0 && Transact(ledger).Threw?
    requires IsUnderflow(ErrorText(Transact(ledger).error, DecrementByFallback))
    ensures DecrementByAsWritten(Integer(n), ledger) == Rejected(AmountNotDefined)
    ensures Handle(DecrementBy, Integer(n), ledger).status == 400
  {
  }

  /** The message that names an amount of 1. */
  lemma BelowZeroErrorOfOne()
    ensures BelowZeroError(Integer(1)) == "Cannot decrement by " + "1" + ": counter would go below zero"
  {
    assert IntText(1) == "1" by {
      assert Decimal(1) == [DigitChar(1)];
    }
  }

  /** The plainest case: `decBy(1)` rejected by an error whose message starts with "underflow". */
  lemma AsWrittenCounterexample(l: Ledger)
    requires l.submit.SubmitFailed? && HasPrefix(l.submit.submitError.message, UnderflowMarker)
    ensures DecrementByAsWritten(Integer(1), l) == Rejected(AmountNotDefined)
    ensures Handle(DecrementBy, Integer(1), l)
            == Response(400, ErrorBody("Cannot decrement by " + "1" + ": counter would go below zero"), [Write("decBy", [1])])
  {
    var text := ErrorText(l.submit.submitError, DecrementByFallback);
    assert text == l.submit.submitError.message;
    assert IsUnderflow(text);
    AsWrittenLosesUnderflowReply(1, l);
    BelowZeroErrorOfOne();
  }
}
