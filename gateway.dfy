/**
 * The gateway object: the entry store, the callback ledger, the forms and
 * the stored submission data it reads and updates in place, with its
 * operations written step by step and each proved equal to the function
 * that specifies it.
 */
module Gateway {
  import opened Wrappers
  import opened PhpStrings
  import opened Entries
  import opened Actions
  import opened Dispatcher
  import opened Webhook
  import opened Charge
  import opened ReturnToken

  class Gateway {
    /** Gravity Forms entries by id. */
    var entries: map<int, Entry>
    /** The framework's callback table: processed callback id to entry id. */
    var ledger: map<string, int>
    /** Forms by id. */
    var forms: map<int, Form>
    /** The `submission_data` entry meta. */
    var submissions: map<int, Submission>

    /** The part of the state the dispatcher and the webhook work on. */
    function Snapshot(): Store
      reads this
    {
      Store(entries, ledger)
    }

    constructor(entries0: map<int, Entry>, forms0: map<int, Form>, submissions0: map<int, Submission>)
      ensures entries == entries0 && ledger == map[] && forms == forms0 && submissions == submissions0
    {
      entries := entries0;
      ledger := map[];
      forms := forms0;
      submissions := submissions0;
    }

    /** `is_duplicate_callback`: whether the id is already in the callback table. */
    method IsDuplicateCallback(callbackId: string) returns (duplicate: bool)
      ensures duplicate <==> callbackId in ledger
    {
      duplicate := callbackId in ledger;
    }

    /** `register_callback`: records the id for the entry. */
    method RegisterCallback(callbackId: string, entryId: int)
      modifies this
      ensures ledger == old(ledger)[callbackId := entryId]
      ensures entries == old(entries) && forms == old(forms) && submissions == old(submissions)
    {
      ledger := ledger[callbackId := entryId];
    }

    /** What `complete_payment`, `fail_payment` and `add_pending_payment` do to the entry: set its payment status. */
    method UpdatePaymentStatus(entryId: int, status: PaymentStatus)
      requires entryId in entries
      modifies this
      ensures entries == old(entries)[entryId := old(entries)[entryId].(status := status)]
      ensures ledger == old(ledger) && forms == old(forms) && submissions == old(submissions)
    {
      entries := entries[entryId := entries[entryId].(status := status)];
    }

    /** `convesiopay_process_callback_action` */
    method ProcessCallbackAction(a: Action) returns (outcome: CallbackOutcome)
      modifies this
      ensures Snapshot() == Dispatch(old(Snapshot()), a).store
      ensures outcome == Dispatch(old(Snapshot()), a).outcome
      ensures forms == old(forms) && submissions == old(submissions)
    {
      if !Empty(a.id) {
        var duplicate := IsDuplicateCallback(a.id);
        if duplicate {
          return DuplicateCallback(a.id);
        }
      }
      if a.entryId !in entries {
        return Returned(false);
      }
      var status := entries[a.entryId].status;
      var result := false;
      if a.kind == "complete_payment" {
        if status != Paid {
          UpdatePaymentStatus(a.entryId, Paid);
          result := true;
        }
      } else if a.kind == "fail_payment" {
        if status != Failed {
          UpdatePaymentStatus(a.entryId, Failed);
        }
        result := true;
      } else if a.kind == "add_pending_payment" {
        if status != Processing && status != Pending {
          UpdatePaymentStatus(a.entryId, Pending);
          result := true;
        }
      }
      if !Empty(a.id) && result {
        RegisterCallback(a.id, a.entryId);
      }
      outcome := Returned(result);
    }

    /** `save_card_digits_to_field` for an existing entry. */
    method SaveCardDigitsToField(entryId: int, card: Card) returns (saved: bool)
      requires entryId in entries
      modifies this
      ensures saved <==> CardWriteFor(entryId, old(entries)[entryId], forms, card).Some?
      ensures entries == ApplyCardWrite(old(entries), entryId, CardWriteFor(entryId, old(entries)[entryId], forms, card))
      ensures ledger == old(ledger) && forms == old(forms) && submissions == old(submissions)
    {
      var entry := entries[entryId];
      var last4 := CardDigits(card);
      if entryId == 0 || Empty(last4) {
        return false;
      }
      if entry.formId == 0 {
        return false;
      }
      if entry.formId !in forms || forms[entry.formId] == [] {
        return false;
      }
      var fieldId := FindCardField(forms[entry.formId]);
      if fieldId.None? || fieldId.value == 0 {
        return false;
      }
      entries := entries[entryId := entry.(values := entry.values[fieldId.value := last4])];
      saved := true;
    }

    /** `save_card_digits_with_validation` for an existing entry. */
    method SaveCardDigitsWithValidation(entryId: int, card: Card, webhookTransactionId: string) returns (saved: bool)
      requires entryId in entries
      modifies this
      ensures saved <==> ValidatedCardWriteFor(entryId, old(entries)[entryId], forms, card, webhookTransactionId).Some?
      ensures entries == ApplyCardWrite(old(entries), entryId, ValidatedCardWriteFor(entryId, old(entries)[entryId], forms, card, webhookTransactionId))
      ensures ledger == old(ledger) && forms == old(forms) && submissions == old(submissions)
    {
      if Empty(webhookTransactionId) {
        return false;
      }
      var entryTransactionId := entries[entryId].transactionId;
      if entryId == 0 || Empty(entryTransactionId) {
        return false;
      }
      if webhookTransactionId != entryTransactionId {
        return false;
      }
      saved := SaveCardDigitsToField(entryId, card);
    }

    /** `process_webhook` */
    method ProcessWebhook(body: Option<EventBody>, hasFeed: FeedLookup, now: nat, importAmount: AmountImport) returns (response: Response)
      modifies this
      ensures Snapshot() == WebhookStep(old(Snapshot()), forms, body, hasFeed, now, importAmount).store
      ensures response == WebhookStep(old(Snapshot()), forms, body, hasFeed, now, importAmount).response
      ensures forms == old(forms) && submissions == old(submissions)
      ensures LedgerConsistent(old(Snapshot())) ==> LedgerConsistent(Snapshot())
    {
      if LedgerConsistent(Snapshot()) {
        WebhookKeepsLedgerConsistent(Snapshot(), forms, body, hasFeed, now, importAmount);
      }
      if body.None? {
        return MissingBody;
      }
      var b := body.value;
      var entryId := EntryIdOf(b);
      if entryId == 0 {
        return NoEntryId;
      }
      if entryId !in entries {
        return EntryNotFound;
      }
      var entry := entries[entryId];
      var transactionId := b.transactionId.GetOr("");
      if IsFinal(entry.status) {
        if CardOf(b).Some? && !Empty(transactionId) {
          var _ := SaveCardDigitsWithValidation(entryId, CardOf(b).value, transactionId);
        }
        return AlreadyProcessed;
      }
      if !hasFeed(entry) {
        return ErrorReply(FeedNotFound);
      }
      ghost var before := Snapshot();
      DispatchingPath(before, forms, b, hasFeed, now, importAmount);
      if CardOf(b).Some? {
        var _ := SaveCardDigitsToField(entryId, CardOf(b).value);
      }
      assert Snapshot() == Captured(before, forms, b);
      var action := WebhookAction(b, entryId, entry.isFulfilled, now, importAmount);
      if action.Err? {
        return ErrorReply(action.error);
      }
      var outcome := ProcessCallbackAction(action.value);
      if outcome.DuplicateCallback? {
        return ErrorReply(DuplicateError(action.value.id));
      }
      response := Accepted;
    }

    /** `handle_ajax_payment`; the processor's answer is a parameter. */
    method HandleAjaxPayment(nonceOk: bool, entryIdParam: string, reply: HttpReply, toMoney: MoneyFormat) returns (answer: AjaxReply)
      modifies this
      ensures (entries, answer) == ChargeStep(old(entries), submissions, nonceOk, entryIdParam, reply, toMoney)
      ensures ledger == old(ledger) && forms == old(forms) && submissions == old(submissions)
      ensures LedgerConsistent(old(Snapshot())) ==> LedgerConsistent(Snapshot())
    {
      if LedgerConsistent(Snapshot()) {
        ChargeKeepsLedgerConsistent(Snapshot(), submissions, nonceOk, entryIdParam, reply, toMoney);
      }
      if !nonceOk {
        return JsonError("Invalid nonce");
      }
      var entryId := IntVal(entryIdParam);
      if entryId !in submissions {
        return JsonError("Submission data not found");
      }
      if entryId !in entries {
        return FatalError;
      }
      if reply.TransportError? {
        return JsonError("Payment processing failed: " + reply.message);
      }
      var action := ChargeActionFor(ParseQuery(reply.body), submissions[entryId].paymentAmount, toMoney);
      if action.CompletePayment? {
        UpdatePaymentStatus(entryId, Paid);
        answer := JsonSuccess;
      } else {
        UpdatePaymentStatus(entryId, Failed);
        answer := JsonError(action.reason);
      }
    }

    /**
     * `redirect_url`: marks the entry Processing, stores the submission data
     * and returns the return token `return_url` puts into the URL.
     */
    method RedirectUrl(formId: nat, entryId: nat, submission: Submission, encode: Coder, hash: Hasher) returns (token: string)
      modifies this
      ensures entries == if entryId in old(entries) then old(entries)[entryId := old(entries)[entryId].(status := Processing)] else old(entries)
      ensures submissions == old(submissions)[entryId := submission]
      ensures token == IssueToken(encode, hash, Decimal(formId), Decimal(entryId))
      ensures ledger == old(ledger) && forms == old(forms)
    {
      if entryId in entries {
        UpdatePaymentStatus(entryId, Processing);
      }
      submissions := submissions[entryId := submission];
      var ids := "ids=" + Decimal(formId) + "|" + Decimal(entryId);
      token := encode(ids + "&hash=" + hash(ids));
    }
  }
}
