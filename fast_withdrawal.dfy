/**
 * The fast-withdrawal page: a request form whose submit validates locally, asks the server for
 * an L2 payment address and fee and shows the total to pay; then a payment form whose submit
 * reports the L2 transaction id and, on success, shows the server's confirmation.
 */
module FastWithdrawal {
  import opened Wrappers
  import opened JsString

  /** The amount field as `parseFloat` reads it: empty, text it reads as NaN, or a number. */
  datatype Amount = Empty | NaN | Num(value: real)

  /** `parseFloat(amount)`: an empty field reads as NaN. */
  function Parsed(a: Amount): (p: Amount)
    ensures p != Empty
    ensures p.Num? <==> a.Num?
    ensures a.Num? ==> p == a
  {
    if a == Empty then NaN else a
  }

  /** `parseFloat(amount) <= 0`, which is false for NaN and for an empty field. */
  predicate NotPositive(a: Amount) {
    a.Num? && a.value <= 0.0
  }

  const SatsPerCoin: real := 100000000.0

  /** `parseFloat(amount) + server_fee_sats / 100000000`, with NaN absorbing. */
  function TotalToPay(a: Amount, feeSats: int): (t: Amount)
    ensures t != Empty
    ensures t.NaN? <==> !a.Num?
    ensures t.Num? && feeSats >= 0 ==> t.value >= a.value
  {
    match a
    case Num(v) => Num(v + feeSats as real / SatsPerCoin)
    case _ => NaN
  }

  /** 1.5 coins with a 2000-satoshi fee come to 1.50002. */
  lemma TotalExample()
    ensures TotalToPay(Num(1.5), 2000) == Num(1.50002)
  {
  }

  /** The payment instructions: the total to send and the server's L2 address. */
  datatype PaymentMessage = PaymentMessage(amount: Amount, address: string)

  /** The page's state, field for field. `None` stands for the empty/`null` initial values. */
  datatype Form = Form(
    amount: Amount,
    address: string,
    selectedServer: string,
    layer2Chain: string,
    withdrawalHash: Option<string>,
    paymentTxid: string,
    paymentMessage: Option<PaymentMessage>,
    successMessage: string,
    errorMessage: string,
    isCompleted: bool)

  /** The state on mount, and after `resetState`. */
  function InitialForm(): Form {
    Form(Empty, "", "localhost", "Thunder", None, "", None, "", "", false)
  }

  /** The answer of `requestWithdrawal`: a thrown error, or an object whose fields may be missing. */
  datatype RequestResponse =
    | RequestThrew(message: string)
    | RequestAnswer(hash: Option<string>, l2AddressInfo: Option<string>, feeSats: int)

  /** The answer of `notifyPaymentComplete`: a thrown error (a missing `message` throws too), or
    * the server's confirmation text. */
  datatype CompleteResponse = CompleteThrew(message: string) | Confirmed(info: string)

  /** The server calls the page makes. */
  datatype ServerCall =
    | NoCall
    | RequestWithdrawal(address: string, amount: Amount, layer2Chain: string)
    | NotifyPaymentComplete(hash: Option<string>, txid: string)

  const AmountError: string := "Amount must be greater than 0"
  const AddressError: string := "Please enter a valid withdrawal address"
  const MissingAddressError: string := "Invalid server response: Missing L2 address"
  const RequestFallback: string := "Withdrawal request failed. Please try again."
  const TxidError: string := "Please enter your L2 payment transaction ID"
  const CompleteFallback: string := "Failed to complete withdrawal. Please try again."

  /** `error.message || fallback`. */
  function ErrorText(message: string, fallback: string): (text: string)
    ensures message != "" ==> text == message
    ensures text == "" <==> message == "" && fallback == ""
  {
    if message == "" then fallback else message
  }

  /** JavaScript truthiness of `withdrawalHash`. */
  predicate HasHash(f: Form) {
    f.withdrawalHash.Some? && f.withdrawalHash.value != ""
  }

  /** `handleSubmit`: the new state and the server call made. */
  function Submit(f: Form, response: RequestResponse): (Form, ServerCall) {
    var cleared := f.(errorMessage := "");
    if NotPositive(f.amount) then
      (cleared.(errorMessage := AmountError), NoCall)
    else if Trim(f.address) == "" then
      (cleared.(errorMessage := AddressError), NoCall)
    else
      var call := RequestWithdrawal(f.address, Parsed(f.amount), f.layer2Chain);
      match response
      case RequestThrew(m) => (cleared.(errorMessage := ErrorText(m, RequestFallback)), call)
      case RequestAnswer(hash, info, fee) =>
        if info.None? || info.value == "" then
          (cleared.(errorMessage := MissingAddressError), call)
        else
          (cleared.(paymentMessage := Some(PaymentMessage(TotalToPay(f.amount, fee), info.value)),
                    withdrawalHash := hash), call)
  }

  /** `handleComplete`: the new state and the server call made. */
  function Complete(f: Form, response: CompleteResponse): (Form, ServerCall) {
    var cleared := f.(errorMessage := "");
    if Trim(f.paymentTxid) == "" then
      (cleared.(errorMessage := TxidError), NoCall)
    else
      var call := NotifyPaymentComplete(f.withdrawalHash, f.paymentTxid);
      match response
      case CompleteThrew(m) => (cleared.(errorMessage := ErrorText(m, CompleteFallback)), call)
      case Confirmed(info) => (cleared.(successMessage := info, isCompleted := true), call)
  }

  /** What the page shows. */
  datatype Screen = RequestScreen | PaymentScreen | SuccessScreen | BlankScreen

  /** The request form while there is no hash, the payment form once there is, the success popup
    * after completion (nothing at all if the confirmation text is empty). */
  function ScreenOf(f: Form): Screen {
    if !f.isCompleted then
      if HasHash(f) then PaymentScreen else RequestScreen
    else if f.successMessage != "" then SuccessScreen
    else BlankScreen
  }

  /** Completion only follows a hash, and a hash always comes with its payment instructions. */
  predicate PhasesConsistent(f: Form) {
    (f.isCompleted ==> HasHash(f)) && (HasHash(f) ==> f.paymentMessage.Some?)
  }

  /** A non-positive amount or a blank or whitespace-only address is refused before any server
    * call, and only the error changes. The amount is checked first: a non-positive amount gets
    * the amount message even when the address is blank too. */
  lemma {:induction false} SubmitValidatesLocally(f: Form, response: RequestResponse)
    requires NotPositive(f.amount) || IsBlank(f.address)
    ensures NotPositive(f.amount) ==> Submit(f, response) == (f.(errorMessage := AmountError), NoCall)
    ensures !NotPositive(f.amount) ==> Submit(f, response) == (f.(errorMessage := AddressError), NoCall)
  {
    TrimEmptyIffBlank(f.address);
  }

  /** NaN slips through the amount check: with a non-blank address the request is sent. */
  lemma {:induction false} NaNAmountIsSent(f: Form, response: RequestResponse)
    requires f.amount.NaN? && !IsBlank(f.address)
    ensures Submit(f, response).1 == RequestWithdrawal(f.address, NaN, f.layer2Chain)
  {
    TrimEmptyIffBlank(f.address);
  }

  /** An answer without an L2 address, or with an empty one, is an error and leaves the hash and
    * the payment instructions as they were. */
  lemma MissingAddressRejected(f: Form, hash: Option<string>, info: Option<string>, fee: int)
    requires info.None? || info.value == ""
    ensures var (g, _) := Submit(f, RequestAnswer(hash, info, fee));
      && g.withdrawalHash == f.withdrawalHash && g.paymentMessage == f.paymentMessage
      && g.errorMessage != ""
  {
  }

  /** A valid request with a complete answer shows the total and the address and holds the hash. */
  lemma {:induction false} SubmitSuccess(f: Form, hash: Option<string>, info: string, fee: int)
    requires !NotPositive(f.amount) && !IsBlank(f.address) && info != ""
    ensures var (g, call) := Submit(f, RequestAnswer(hash, Some(info), fee));
      && call == RequestWithdrawal(f.address, Parsed(f.amount), f.layer2Chain)
      && g.withdrawalHash == hash
      && g.paymentMessage == Some(PaymentMessage(TotalToPay(f.amount, fee), info))
      && g.errorMessage == ""
  {
    TrimEmptyIffBlank(f.address);
  }

  /** A blank transaction id is refused without calling the server. */
  lemma {:induction false} CompleteRejectsBlankTxid(f: Form, response: CompleteResponse)
    requires IsBlank(f.paymentTxid)
    ensures Complete(f, response) == (f.(errorMessage := TxidError), NoCall)
  {
    TrimEmptyIffBlank(f.paymentTxid);
  }

  /** A failed completion keeps the hash and the completion flag, and a retry after it does exactly
    * what the first attempt would have done had it succeeded. */
  lemma FailedCompletionRetryable(f: Form, message: string, retry: CompleteResponse)
    ensures Complete(f, CompleteThrew(message)).0.withdrawalHash == f.withdrawalHash
    ensures Complete(f, CompleteThrew(message)).0.isCompleted == f.isCompleted
    ensures Complete(Complete(f, CompleteThrew(message)).0, retry) == Complete(f, retry)
  {
  }

  /** A successful completion sets the flag and stores the server's message. */
  lemma {:induction false} CompleteSuccess(f: Form, info: string)
    requires !IsBlank(f.paymentTxid)
    ensures Complete(f, Confirmed(info)).0 == f.(errorMessage := "", successMessage := info, isCompleted := true)
    ensures Complete(f, Confirmed(info)).1 == NotifyPaymentComplete(f.withdrawalHash, f.paymentTxid)
  {
    TrimEmptyIffBlank(f.paymentTxid);
  }

  /** Every submit and every completion clears the previous error first: their outcome does not
    * depend on it. */
  lemma ErrorClearedFirst(f: Form, e: string, r1: RequestResponse, r2: CompleteResponse)
    ensures Submit(f.(errorMessage := e), r1) == Submit(f, r1)
    ensures Complete(f.(errorMessage := e), r2) == Complete(f, r2)
  {
  }

  /** From the request form, a submit leads to the payment form exactly when the server answered
    * with an address and a hash. */
  lemma {:induction false} SubmitPhase(f: Form, response: RequestResponse)
    requires ScreenOf(f) == RequestScreen
    ensures var g := Submit(f, response).0;
      ScreenOf(g) == (if HasHash(g) then PaymentScreen else RequestScreen)
    ensures ScreenOf(Submit(f, response).0) == PaymentScreen ==>
      response.RequestAnswer? && response.l2AddressInfo.Some? && response.l2AddressInfo.value != ""
  {
  }

  /** From the payment form, a completion reaches the success popup exactly on a non-empty
    * confirmation; a failure stays on the payment form. */
  lemma {:induction false} CompletePhase(f: Form, response: CompleteResponse)
    requires ScreenOf(f) == PaymentScreen
    ensures ScreenOf(Complete(f, response).0) == SuccessScreen
        <==> !IsBlank(f.paymentTxid) && response.Confirmed? && response.info != ""
    ensures response.CompleteThrew? ==> ScreenOf(Complete(f, response).0) == PaymentScreen
  {
    TrimEmptyIffBlank(f.paymentTxid);
  }

  /** A submit from the request form keeps the phases consistent. */
  lemma SubmitKeepsPhases(f: Form, response: RequestResponse)
    requires PhasesConsistent(f) && ScreenOf(f) == RequestScreen
    ensures PhasesConsistent(Submit(f, response).0)
  {
  }

  /** A completion from the payment form keeps the phases consistent. */
  lemma CompleteKeepsPhases(f: Form, response: CompleteResponse)
    requires PhasesConsistent(f) && ScreenOf(f) == PaymentScreen
    ensures PhasesConsistent(Complete(f, response).0)
  {
  }

  /** The page's React state. */
  class FastWithdrawalModal {
    var amount: Amount
    var address: string
    var selectedServer: string
    var layer2Chain: string
    var withdrawalHash: Option<string>
    var paymentTxid: string
    var paymentMessage: Option<PaymentMessage>
    var successMessage: string
    var errorMessage: string
    var isCompleted: bool

    /** The fields as one value. */
    function State(): Form
      reads this
    {
      Form(amount, address, selectedServer, layer2Chain, withdrawalHash, paymentTxid,
           paymentMessage, successMessage, errorMessage, isCompleted)
    }

    ghost predicate Valid()
      reads this
    {
      PhasesConsistent(State())
    }

    constructor ()
      ensures State() == InitialForm() && Valid()
    {
      amount, address, selectedServer, layer2Chain := Empty, "", "localhost", "Thunder";
      withdrawalHash, paymentTxid, paymentMessage := None, "", None;
      successMessage, errorMessage, isCompleted := "", "", false;
    }

    /** Typing in the amount field (held as what `parseFloat` reads in it). */
    method EditAmount(a: Amount)
      requires Valid()
      modifies this
      ensures Valid() && State() == old(State()).(amount := a)
    {
      amount := a;
    }

    /** Typing in the address field. */
    method EditAddress(s: string)
      requires Valid()
      modifies this
      ensures Valid() && State() == old(State()).(address := s)
    {
      address := s;
    }

    /** Choosing the withdrawal server. */
    method SelectServer(s: string)
      requires Valid()
      modifies this
      ensures Valid() && State() == old(State()).(selectedServer := s)
    {
      selectedServer := s;
    }

    /** Choosing the L2 chain. */
    method SelectLayer2Chain(s: string)
      requires Valid()
      modifies this
      ensures Valid() && State() == old(State()).(layer2Chain := s)
    {
      layer2Chain := s;
    }

    /** Typing in the transaction id field. */
    method EditTxid(s: string)
      requires Valid()
      modifies this
      ensures Valid() && State() == old(State()).(paymentTxid := s)
    {
      paymentTxid := s;
    }

    /** Closing the error popup. */
    method DismissError()
      requires Valid()
      modifies this
      ensures Valid() && State() == old(State()).(errorMessage := "")
    {
      errorMessage := "";
    }

    /** `handleSubmit`, reachable from the request form only, and only with the amount and
      * address filled in: both inputs are `required`, so the browser does not submit the form
      * while either is empty. `response` is the server's answer if it is asked. */
    method HandleSubmit(response: RequestResponse) returns (call: ServerCall)
      requires Valid() && ScreenOf(State()) == RequestScreen
      requires State().amount != Empty && State().address != ""
      modifies this
      ensures Valid()
      ensures (State(), call) == Submit(old(State()), response)
    {
      SubmitKeepsPhases(State(), response);
      errorMessage := "";
      call := NoCall;
      if amount.Num? && amount.value <= 0.0 {
        errorMessage := AmountError;
        return;
      }
      if Trim(address) == "" {
        errorMessage := AddressError;
        return;
      }
      call := RequestWithdrawal(address, Parsed(amount), layer2Chain);
      match response
      case RequestThrew(m) =>
        errorMessage := ErrorText(m, RequestFallback);
      case RequestAnswer(hash, info, fee) =>
        if info.None? || info.value == "" {
          errorMessage := MissingAddressError;
          return;
        }
        var total := TotalToPay(amount, fee);
        paymentMessage := Some(PaymentMessage(total, info.value));
        withdrawalHash := hash;
    }

    /** `handleComplete`, reachable from the payment form only, and only with the transaction id
      * filled in (the input is `required`). `response` is the server's answer if it is asked. */
    method HandleComplete(response: CompleteResponse) returns (call: ServerCall)
      requires Valid() && ScreenOf(State()) == PaymentScreen
      requires State().paymentTxid != ""
      modifies this
      ensures Valid()
      ensures (State(), call) == Complete(old(State()), response)
    {
      ghost var f := State();
      CompleteKeepsPhases(f, response);
      errorMessage := "";
      call := NoCall;
      if Trim(paymentTxid) == "" {
        errorMessage := TxidError;
        return;
      }
      call := NotifyPaymentComplete(withdrawalHash, paymentTxid);
      match response
      case CompleteThrew(m) =>
        errorMessage := ErrorText(m, CompleteFallback);
      case Confirmed(info) =>
        successMessage := info;
        isCompleted := true;
    }

    /** `resetState`: every field back to its initial value. */
    method ResetState()
      modifies this
      ensures Valid() && State() == InitialForm()
    {
      amount, address, selectedServer, layer2Chain := Empty, "", "localhost", "Thunder";
      withdrawalHash, paymentTxid, paymentMessage := None, "", None;
      successMessage, errorMessage, isCompleted := "", "", false;
    }

    /** `handleStartNew`, from the success popup. */
    method HandleStartNew()
      modifies this
      ensures Valid() && State() == InitialForm() && ScreenOf(State()) == RequestScreen
    {
      ResetState();
    }
  }
}
