/**
 * The synchronous charge (`handle_ajax_payment`) as a function on the
 * entries: the guards before the request, the processor's reply parsed as a
 * query string, and the framework call the reply selects. Unlike the
 * webhook, this path neither consults nor writes the callback ledger and
 * applies no status guard.
 */
module Charge {
  import opened PhpStrings
  import opened Entries
  import opened Actions
  import opened Dispatcher

  /** The `submission_data` meta stored for an entry: the part the charge reads. */
  datatype Submission = Submission(paymentAmount: string)

  /** What `wp_remote_post` yields: a transport error's message, or the reply body. */
  datatype HttpReply = TransportError(message: string) | HttpBody(body: string)

  /**
   * How the request ends: `wp_send_json_success`, `wp_send_json_error` with
   * its message, or a PHP fatal error.
   */
  datatype AjaxReply = JsonSuccess | JsonError(message: string) | FatalError

  /** `complete_payment` sets Paid and `fail_payment` sets Failed, whatever the status was. */
  function ApplyCharge(entries: map<int, Entry>, entryId: int, a: ChargeAction): map<int, Entry>
    requires entryId in entries
  {
    entries[entryId := entries[entryId].(status := if a.CompletePayment? then Paid else Failed)]
  }

  /**
   * One charge request. `nonceOk` is the nonce check, `entryIdParam` the
   * posted `entry_id`, `reply` the processor's answer. A missing entry is
   * not caught by `! $entry` (the lookup yields an error object, which is
   * truthy): with submission data present, the request reaches
   * `$entry['currency']` on that object and ends in a fatal error.
   */
  function ChargeStep(entries: map<int, Entry>, submissions: map<int, Submission>, nonceOk: bool,
                      entryIdParam: string, reply: HttpReply, toMoney: MoneyFormat): (map<int, Entry>, AjaxReply)
  {
    var entryId := IntVal(entryIdParam);
    if !nonceOk then (entries, JsonError("Invalid nonce"))
    else if entryId !in submissions then (entries, JsonError("Submission data not found"))
    else if entryId !in entries then (entries, FatalError)
    else match reply
      case TransportError(message) => (entries, JsonError("Payment processing failed: " + message))
      case HttpBody(body) =>
        var a := ChargeActionFor(ParseQuery(body), submissions[entryId].paymentAmount, toMoney);
        (ApplyCharge(entries, entryId, a), if a.CompletePayment? then JsonSuccess else JsonError(a.reason))
  }

  /**
   * A request that stops before a reply body is parsed changes nothing: a
   * bad nonce, no submission data, a missing entry, a transport error.
   */
  lemma EarlyExitChangesNothing(entries: map<int, Entry>, submissions: map<int, Submission>, nonceOk: bool,
                                entryIdParam: string, reply: HttpReply, toMoney: MoneyFormat)
    requires !nonceOk || IntVal(entryIdParam) !in submissions || IntVal(entryIdParam) !in entries || reply.TransportError?
    ensures var (after, answer) := ChargeStep(entries, submissions, nonceOk, entryIdParam, reply, toMoney);
      && after == entries
      && answer != JsonSuccess
      && (!nonceOk ==> answer == JsonError("Invalid nonce"))
  {
  }

  /**
   * A parsed reply decides the entry's status: approved (`response` is "1")
   * makes it Paid and answers success, anything else makes it Failed and
   * answers the processor's `responsetext` or the default reason. No other
   * entry and nothing else in the entry changes.
   */
  lemma ReplyDecidesStatus(entries: map<int, Entry>, submissions: map<int, Submission>, entryIdParam: string, body: string, toMoney: MoneyFormat)
    requires IntVal(entryIdParam) in submissions && IntVal(entryIdParam) in entries
    ensures var entryId := IntVal(entryIdParam);
      var result := ParseQuery(body);
      var approved := "response" in result && result["response"] == "1";
      var (after, answer) := ChargeStep(entries, submissions, true, entryIdParam, HttpBody(body), toMoney);
      && after.Keys == entries.Keys
      && (forall k :: k in entries && k != entryId ==> after[k] == entries[k])
      && after[entryId] == entries[entryId].(status := after[entryId].status)
      && (answer == JsonSuccess <==> approved)
      && (approved ==> after[entryId].status == Paid)
      && (!approved ==> after[entryId].status == Failed
                        && answer == JsonError(if "responsetext" in result then result["responsetext"] else DefaultDeclineReason))
  {
  }

  /**
   * No status guard on this path: a declined charge turns an entry the
   * webhook already settled as Paid into Failed.
   */
  lemma DeclineOverridesPaid(entries: map<int, Entry>, submissions: map<int, Submission>, entryIdParam: string, body: string, toMoney: MoneyFormat)
    requires IntVal(entryIdParam) in submissions && IntVal(entryIdParam) in entries
    requires entries[IntVal(entryIdParam)].status == Paid
    requires "response" !in ParseQuery(body)
    ensures ChargeStep(entries, submissions, true, entryIdParam, HttpBody(body), toMoney).0[IntVal(entryIdParam)].status == Failed
  {
  }

  /** An approving reply body with a transaction id: `response=1&transactionid=<t>` completes the payment under `t`. */
  lemma ApprovalReplyCompletes(transactionId: string, submissionAmount: string, toMoney: MoneyFormat)
    requires '&' !in transactionId
    ensures ChargeActionFor(ParseQuery("response=1&transactionid=" + transactionId), submissionAmount, toMoney)
         == CompletePayment(transactionId, submissionAmount)
  {
    assert "response=1&transactionid=" + transactionId == "response" + "=" + "1" + "&" + "transactionid" + "=" + transactionId;
    ParseTwoPairs("response", "1", "transactionid", transactionId);
    ApprovedResultCompletes(transactionId, submissionAmount, toMoney);
  }

  /** The parsed approval without an `amount` completes under its transaction id and the submission's amount. */
  lemma ApprovedResultCompletes(transactionId: string, submissionAmount: string, toMoney: MoneyFormat)
    ensures ChargeActionFor(map["response" := "1", "transactionid" := transactionId], submissionAmount, toMoney)
         == CompletePayment(transactionId, submissionAmount)
  {
    var result := map["response" := "1", "transactionid" := transactionId];
    assert "amount" !in result;
  }

  /**
   * The charge keeps the ledger consistent: it only ever writes Paid or
   * Failed, so an entry that was final stays final.
   */
  lemma ChargeKeepsLedgerConsistent(st: Store, submissions: map<int, Submission>, nonceOk: bool,
                                    entryIdParam: string, reply: HttpReply, toMoney: MoneyFormat)
    requires LedgerConsistent(st)
    ensures LedgerConsistent(st.(entries := ChargeStep(st.entries, submissions, nonceOk, entryIdParam, reply, toMoney).0))
  {
  }
}
