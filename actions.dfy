/**
 * The two places that turn a processor report into an action record:
 * `process_webhook_action` (the webhook's settlement condition) and the
 * response mapping of `handle_ajax_payment` (the synchronous charge reply).
 */
module Actions {
  import opened Wrappers
  import opened PhpStrings
  import opened Entries

  /** A `WP_Error`: its code, message and the `status` of its data, if any. */
  datatype WpError = WpError(code: string, message: string, status: Option<int>)

  /** `array|WP_Error` */
  datatype Result<T> = Ok(value: T) | Err(error: WpError)

  /**
   * An action's `note`, as its template and the values filled in;
   * `NoteText` gives the text the source builds.
   */
  datatype Note =
    | CompletedViaWebhook(transactionId: string)
    | FailedViaWebhook(status: string, transactionId: string)
    | PendingViaWebhook(transactionId: string)
    | ChargeFailed(money: string, transactionId: string, reason: string)

  function NoteText(n: Note): string {
    match n
    case CompletedViaWebhook(t) => "Payment completed via webhook. Transaction ID: " + t
    case FailedViaWebhook(status, t) => "Payment failed via webhook. Status: " + UcFirst(status) + ". Transaction ID: " + t
    case PendingViaWebhook(t) => "Payment is pending via webhook. Transaction ID: " + t
    case ChargeFailed(money, t, reason) => "Payment failed. Amount: " + money + ". Transaction ID: " + t + ". Reason: " + reason
  }

  /**
   * The action array handed to the callback dispatcher. `id` is "" when
   * absent (`rgar` then yields a falsy value); `kind` is its `type`.
   */
  datatype Action = Action(
    id: string,
    entryId: int,
    transactionId: string,
    amount: string,
    kind: string,
    note: Option<Note>,
    readyToFulfill: Option<bool>,
    errorMessage: Option<string>)

  /**
   * The webhook's `event_body`, with the keys the core reads; an absent key
   * is `None`. `card` is `None` also when it is not an array.
   */
  datatype EventBody = EventBody(
    merchantFields: map<string, string>,
    transactionId: Option<string>,
    condition: Option<string>,
    requestedAmount: Option<string>,
    currency: Option<string>,
    card: Option<Card>)

  /** `get_amount_import($amount, $currency)`, taken as a function parameter. */
  type AmountImport = (string, string) -> string

  /** The settlement conditions the table maps to a failed payment. */
  const FailConditions: set<string> := {"failed", "blocked", "cancelled", "refunded", "disputed"}

  const UnhandledStatus: WpError := WpError("unhandled_status", "Unhandled webhook status", Some(400))

  /** The callback id: `transaction_id . '_' . time()`, `now` standing for `time()`. */
  function CallbackId(transactionId: string, now: nat): (id: string)
    ensures !Empty(id)
  {
    transactionId + "_" + Decimal(now)
  }

  /**
   * `process_webhook_action`: the lower-cased `condition` selects the action
   * type through an explicit table; anything outside it is `unhandled_status`.
   */
  function WebhookAction(body: EventBody, entryId: int, isFulfilled: bool, now: nat, importAmount: AmountImport): (r: Result<Action>)
    ensures var status := Lower(body.condition.GetOr(""));
      && (r.Ok? && r.value.kind == "complete_payment" <==> status == "pendingsettlement")
      && (r.Ok? && r.value.kind == "fail_payment" <==> status in FailConditions)
      && (r.Ok? && r.value.kind == "convesiopay_add_pending_payment" <==> status == "pending")
      && (r.Err? <==> status != "pendingsettlement" && status !in FailConditions && status != "pending")
    ensures r.Err? ==> r.error == UnhandledStatus
    ensures r.Ok? ==> && r.value.id == CallbackId(body.transactionId.GetOr(""), now)
                      && r.value.entryId == entryId
                      && r.value.transactionId == body.transactionId.GetOr("")
                      && (r.value.readyToFulfill.Some? <==> r.value.kind == "complete_payment")
                      && (r.value.readyToFulfill.Some? ==> r.value.readyToFulfill.value == !isFulfilled)
  {
    var transactionId := body.transactionId.GetOr("");
    var status := Lower(body.condition.GetOr(""));
    var amount := importAmount(body.requestedAmount.GetOr(""), body.currency.GetOr(""));
    var base := Action(CallbackId(transactionId, now), entryId, transactionId, amount, "", None, None, None);
    if status == "pendingsettlement" then
      Ok(base.(kind := "complete_payment",
               note := Some(CompletedViaWebhook(transactionId)),
               readyToFulfill := Some(!isFulfilled)))
    else if status in FailConditions then
      Ok(base.(kind := "fail_payment",
               note := Some(FailedViaWebhook(status, transactionId)),
               errorMessage := Some("The payment status was updated to: " + UcFirst(status))))
    else if status == "pending" then
      Ok(base.(kind := "convesiopay_add_pending_payment",
               note := Some(PendingViaWebhook(transactionId))))
    else
      Err(UnhandledStatus)
  }

  /** The table ignores letter case: conditions equal up to case give the same action. */
  lemma ConditionCaseInsensitive(body: EventBody, c: string, entryId: int, isFulfilled: bool, now: nat, importAmount: AmountImport)
    requires body.condition.Some? && Lower(body.condition.value) == Lower(c)
    ensures WebhookAction(body, entryId, isFulfilled, now, importAmount)
         == WebhookAction(body.(condition := Some(c)), entryId, isFulfilled, now, importAmount)
  {
  }

  /** The action for a synchronous charge reply (no callback id). */
  datatype ChargeAction =
    | CompletePayment(transactionId: string, amount: string)
    | FailPayment(amount: string, transactionId: string, reason: string, note: Note)

  const DefaultDeclineReason: string := "Payment was declined or an error occurred."

  /** `GFCommon::to_money($amount, $currency)`, taken as a function parameter. */
  type MoneyFormat = string -> string

  /**
   * The reply mapping of `handle_ajax_payment`: `result` is the parsed reply
   * body, `submissionAmount` the submission's `payment_amount`.
   */
  function ChargeActionFor(result: map<string, string>, submissionAmount: string, toMoney: MoneyFormat): (a: ChargeAction)
    ensures a.CompletePayment? <==> "response" in result && result["response"] == "1"
    ensures a.CompletePayment? ==>
      && a.amount == (if "amount" in result then result["amount"] else submissionAmount)
      && a.transactionId == (if "transactionid" in result then result["transactionid"] else "")
    ensures a.FailPayment? ==>
      && a.amount == submissionAmount
      && a.transactionId == (if "transactionid" in result then result["transactionid"] else "N/A")
      && a.reason == (if "responsetext" in result then result["responsetext"] else DefaultDeclineReason)
  {
    if "response" in result && result["response"] == "1" then
      CompletePayment(
        if "transactionid" in result then result["transactionid"] else "",
        if "amount" in result then result["amount"] else submissionAmount)
    else
      var reason := if "responsetext" in result then result["responsetext"] else DefaultDeclineReason;
      var transactionId := if "transactionid" in result then result["transactionid"] else "N/A";
      FailPayment(
        submissionAmount, transactionId, reason,
        ChargeFailed(toMoney(submissionAmount), transactionId, reason))
  }

  /** A declined charge's note names the formatted amount, the transaction id and the reason. */
  lemma DeclineNoteIsComplete(result: map<string, string>, submissionAmount: string, toMoney: MoneyFormat)
    requires !("response" in result && result["response"] == "1")
    ensures var a := ChargeActionFor(result, submissionAmount, toMoney);
      && Contains(toMoney(submissionAmount), NoteText(a.note))
      && Contains(a.transactionId, NoteText(a.note))
      && Contains(a.reason, NoteText(a.note))
  {
    var a := ChargeActionFor(result, submissionAmount, toMoney);
    assert a.note == ChargeFailed(toMoney(submissionAmount), a.transactionId, a.reason);
    SlotsAreContained("Payment failed. Amount: ", toMoney(submissionAmount), ". Transaction ID: ", a.transactionId, ". Reason: ", a.reason);
  }

  /** Each value filled into a three-slot template occurs in the text. */
  lemma SlotsAreContained(p1: string, x: string, p2: string, y: string, p3: string, z: string)
    ensures var text := p1 + x + p2 + y + p3 + z;
      Contains(x, text) && Contains(y, text) && Contains(z, text)
  {
    var text := p1 + x + p2 + y + p3 + z;
    ContainsInMiddle(p1, x, p2 + y + p3 + z);
    assert p1 + x + (p2 + y + p3 + z) == text;
    ContainsInMiddle(p1 + x + p2, y, p3 + z);
    assert p1 + x + p2 + y + (p3 + z) == text;
    ContainsInMiddle(p1 + x + p2 + y + p3, z, "");
    assert p1 + x + p2 + y + p3 + z + "" == text;
  }
}
