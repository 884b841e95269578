/**
 * The webhook front door (`process_webhook`) as a function on the store:
 * the guards in their order, the card capture, the action table and the
 * dispatcher, and the reply each path returns.
 */
module Webhook {
  import opened Wrappers
  import opened PhpStrings
  import opened Entries
  import opened Actions
  import opened Dispatcher

  /** A `WP_REST_Response` (status code, `status`, optional `message`) or a returned `WP_Error`. */
  datatype Response = Reply(httpStatus: int, status: string, message: Option<string>) | ErrorReply(error: WpError)

  /** The store after a delivery, and the reply. */
  datatype Outcome = Outcome(store: Store, response: Response)

  /** `get_payment_feed($entry)`: whether the entry's form has a payment feed, taken as a function parameter. */
  type FeedLookup = Entry -> bool

  const MissingBody: Response := Reply(400, "error", Some("Missing event body."))
  const NoEntryId: Response := Reply(200, "success", Some("Webhook ignored: Entry ID not found."))
  const EntryNotFound: Response := Reply(200, "success", Some("Entry not found."))
  const AlreadyProcessed: Response := Reply(200, "success", Some("Entry already processed."))
  const Accepted: Response := Reply(200, "success", None)
  const FeedNotFound: WpError := WpError("feed_not_found", "Feed not found", Some(404))

  /** `intval(merchant_defined_fields['1'])`, or 0 when that field is absent. */
  function EntryIdOf(body: EventBody): int {
    if "1" in body.merchantFields then IntVal(body.merchantFields["1"]) else 0
  }

  /** The `card` array when it is present and not empty. */
  function CardOf(body: EventBody): Option<Card> {
    if body.card.Some? && body.card.value != map[] then body.card else None
  }

  /**
   * One delivery of the webhook. `body` is `None` when `event_body` is
   * absent or falsy; `now` stands for `time()`.
   */
  function WebhookStep(st: Store, forms: map<int, Form>, body: Option<EventBody>, hasFeed: FeedLookup, now: nat, importAmount: AmountImport): (r: Outcome)
    ensures r.store.entries.Keys == st.entries.Keys
  {
    if body.None? then Outcome(st, MissingBody)
    else
      var b := body.value;
      var entryId := EntryIdOf(b);
      if entryId == 0 then Outcome(st, NoEntryId)
      else if entryId !in st.entries then Outcome(st, EntryNotFound)
      else
        var entry := st.entries[entryId];
        var transactionId := b.transactionId.GetOr("");
        if IsFinal(entry.status) then
          var w := if CardOf(b).Some? && !Empty(transactionId)
                   then ValidatedCardWriteFor(entryId, entry, forms, CardOf(b).value, transactionId) else None;
          Outcome(st.(entries := ApplyCardWrite(st.entries, entryId, w)), AlreadyProcessed)
        else if !hasFeed(entry) then Outcome(st, ErrorReply(FeedNotFound))
        else
          var captured := Captured(st, forms, b);
          match WebhookAction(b, entryId, entry.isFulfilled, now, importAmount)
          case Err(e) => Outcome(captured, ErrorReply(e))
          case Ok(a) => Deliver(captured, a)
  }

  /** The end of a delivery: the dispatcher's `duplicate` error is returned, any `$result` is a success. */
  function Deliver(st: Store, a: Action): (r: Outcome)
    ensures r.store.entries.Keys == st.entries.Keys
  {
    var step := Dispatch(st, a);
    if step.outcome.DuplicateCallback? then Outcome(step.store, ErrorReply(DuplicateError(a.id)))
    else Outcome(step.store, Accepted)
  }

  /** The store a delivery hands to the dispatcher, after the card capture. */
  function Captured(st: Store, forms: map<int, Form>, b: EventBody): (r: Store)
    requires EntryIdOf(b) in st.entries
    ensures r.entries.Keys == st.entries.Keys && r.ledger == st.ledger
    ensures forall k :: k in st.entries ==> r.entries[k].status == st.entries[k].status
  {
    var entryId := EntryIdOf(b);
    var w := if CardOf(b).Some? then CardWriteFor(entryId, st.entries[entryId], forms, CardOf(b).value) else None;
    st.(entries := ApplyCardWrite(st.entries, entryId, w))
  }

  /** The dispatching path of a delivery, in terms of `Captured` and `Deliver`. */
  lemma DispatchingPath(st: Store, forms: map<int, Form>, b: EventBody, hasFeed: FeedLookup, now: nat, importAmount: AmountImport)
    requires EntryIdOf(b) != 0 && EntryIdOf(b) in st.entries
    requires !IsFinal(st.entries[EntryIdOf(b)].status) && hasFeed(st.entries[EntryIdOf(b)])
    ensures var captured := Captured(st, forms, b);
      var act := WebhookAction(b, EntryIdOf(b), st.entries[EntryIdOf(b)].isFulfilled, now, importAmount);
      WebhookStep(st, forms, Some(b), hasFeed, now, importAmount)
        == if act.Err? then Outcome(captured, ErrorReply(act.error)) else Deliver(captured, act.value)
  {
  }

  /** Statuses of all entries agree. */
  predicate SameStatuses(before: map<int, Entry>, after: map<int, Entry>) {
    before.Keys == after.Keys && forall k :: k in before ==> after[k].status == before[k].status
  }

  /**
   * What one delivery can change: no entry appears or disappears; only the
   * entry the body names changes, and of it only its card field and its
   * status; the ledger only gains the delivery's callback id, for that entry.
   */
  lemma WebhookFrame(st: Store, forms: map<int, Form>, body: Option<EventBody>, hasFeed: FeedLookup, now: nat, importAmount: AmountImport)
    ensures var r := WebhookStep(st, forms, body, hasFeed, now, importAmount);
      && r.store.entries.Keys == st.entries.Keys
      && (forall k :: k in st.entries && (body.None? || k != EntryIdOf(body.value)) ==> r.store.entries[k] == st.entries[k])
      && (forall k :: k in st.entries ==>
            && r.store.entries[k].formId == st.entries[k].formId
            && r.store.entries[k].transactionId == st.entries[k].transactionId
            && r.store.entries[k].isFulfilled == st.entries[k].isFulfilled)
      && (forall k :: k in st.entries ==>
            AgreeOffField(st.entries[k].values, r.store.entries[k].values, CardFieldOf(st.entries[k], forms)))
      && st.ledger.Keys <= r.store.ledger.Keys
      && (forall id :: id in r.store.ledger ==>
            || (id in st.ledger && r.store.ledger[id] == st.ledger[id])
            || (body.Some? && id == CallbackId(body.value.transactionId.GetOr(""), now) && r.store.ledger[id] == EntryIdOf(body.value)))
  {
    if body.Some? && EntryIdOf(body.value) != 0 && EntryIdOf(body.value) in st.entries {
      var b := body.value;
      var entryId := EntryIdOf(b);
      var entry := st.entries[entryId];
      if !IsFinal(entry.status) && hasFeed(entry) {
        var captured := Captured(st, forms, b);
        var act := WebhookAction(b, entryId, entry.isFulfilled, now, importAmount);
        DispatchingPath(st, forms, b, hasFeed, now, importAmount);
        CapturedFrame(st, forms, b);
        if act.Ok? {
          DeliverFrame(captured, act.value);
        }
      }
    }
    WebhookFieldFrame(st, forms, body, hasFeed, now, importAmount);
  }

  /** Of the field values, a delivery can change only the card-digits field of the entry's form. */
  lemma WebhookFieldFrame(st: Store, forms: map<int, Form>, body: Option<EventBody>, hasFeed: FeedLookup, now: nat, importAmount: AmountImport)
    ensures var r := WebhookStep(st, forms, body, hasFeed, now, importAmount);
      forall k :: k in st.entries ==>
        AgreeOffField(st.entries[k].values, r.store.entries[k].values, CardFieldOf(st.entries[k], forms))
  {
    if body.Some? && EntryIdOf(body.value) != 0 && EntryIdOf(body.value) in st.entries {
      var b := body.value;
      var entryId := EntryIdOf(b);
      var entry := st.entries[entryId];
      var transactionId := b.transactionId.GetOr("");
      if IsFinal(entry.status) {
        if CardOf(b).Some? && !Empty(transactionId) {
          CaptureTouchesOnlyCardField(st.entries, entryId, forms, CardOf(b).value, transactionId, true);
        }
      } else if hasFeed(entry) {
        var captured := Captured(st, forms, b);
        var act := WebhookAction(b, entryId, entry.isFulfilled, now, importAmount);
        DispatchingPath(st, forms, b, hasFeed, now, importAmount);
        CapturedFrame(st, forms, b);
        if act.Ok? {
          DeliverFrame(captured, act.value);
        }
      }
    }
  }

  /** What the card capture can change: only the named entry, and of it only its card-digits field. */
  lemma CapturedFrame(st: Store, forms: map<int, Form>, b: EventBody)
    requires EntryIdOf(b) in st.entries
    ensures var c := Captured(st, forms, b);
      && (forall k :: k in st.entries && k != EntryIdOf(b) ==> c.entries[k] == st.entries[k])
      && (forall k :: k in st.entries ==>
            && c.entries[k].formId == st.entries[k].formId
            && c.entries[k].transactionId == st.entries[k].transactionId
            && c.entries[k].isFulfilled == st.entries[k].isFulfilled)
      && (forall k :: k in st.entries ==>
            AgreeOffField(st.entries[k].values, c.entries[k].values, CardFieldOf(st.entries[k], forms)))
  {
    if CardOf(b).Some? {
      CaptureTouchesOnlyCardField(st.entries, EntryIdOf(b), forms, CardOf(b).value, "", false);
    }
  }

  /** What `Deliver` can change: only the action's entry, only its status; the ledger only gains the action's id, for that entry. */
  lemma DeliverFrame(st: Store, a: Action)
    ensures var r := Deliver(st, a).store;
      && r.entries.Keys == st.entries.Keys
      && (forall k :: k in st.entries && k != a.entryId ==> r.entries[k] == st.entries[k])
      && (forall k :: k in st.entries ==> r.entries[k] == st.entries[k].(status := r.entries[k].status))
      && st.ledger.Keys <= r.ledger.Keys
      && (forall id :: id in r.ledger ==> (id in st.ledger && r.ledger[id] == st.ledger[id]) || (id == a.id && r.ledger[id] == a.entryId))
  {
    OnlyTargetStatusChanges(st, a);
    LedgerRecordsIff(st, a);
  }

  /**
   * Every reply other than the plain success leaves all statuses and the
   * ledger as they were (a card capture may still have happened).
   */
  lemma FailedDeliveryChangesNoStatus(st: Store, forms: map<int, Form>, body: Option<EventBody>, hasFeed: FeedLookup, now: nat, importAmount: AmountImport)
    ensures var r := WebhookStep(st, forms, body, hasFeed, now, importAmount);
      r.response != Accepted ==> SameStatuses(st.entries, r.store.entries) && r.store.ledger == st.ledger
  {
    if body.Some? && EntryIdOf(body.value) != 0 && EntryIdOf(body.value) in st.entries {
      var b := body.value;
      var entry := st.entries[EntryIdOf(b)];
      if !IsFinal(entry.status) && hasFeed(entry) {
        var captured := Captured(st, forms, b);
        var act := WebhookAction(b, EntryIdOf(b), entry.isFulfilled, now, importAmount);
        DispatchingPath(st, forms, b, hasFeed, now, importAmount);
        if act.Ok? {
          RefusedDeliveryChangesNothing(captured, act.value);
        }
      }
    }
  }

  /** `Deliver` answers anything but success only for a duplicate, which leaves the store as it was. */
  lemma RefusedDeliveryChangesNothing(st: Store, a: Action)
    ensures Deliver(st, a).response != Accepted ==> Deliver(st, a).store == st
  {
  }

  /** An entry already Paid or Failed keeps its status and its ledger, and the reply says it was already processed. */
  lemma FinalEntryUntouched(st: Store, forms: map<int, Form>, body: EventBody, hasFeed: FeedLookup, now: nat, importAmount: AmountImport)
    requires EntryIdOf(body) != 0 && EntryIdOf(body) in st.entries && IsFinal(st.entries[EntryIdOf(body)].status)
    ensures var r := WebhookStep(st, forms, Some(body), hasFeed, now, importAmount);
      && r.response == AlreadyProcessed
      && SameStatuses(st.entries, r.store.entries)
      && r.store.ledger == st.ledger
  {
  }

  /**
   * The only status changes a delivery makes: the named entry, from a
   * non-final status, to Paid (settlement) or Failed (a failure condition).
   * In particular the webhook never moves an entry to Pending.
   */
  lemma StatusTransitions(st: Store, forms: map<int, Form>, body: Option<EventBody>, hasFeed: FeedLookup, now: nat, importAmount: AmountImport)
    ensures var r := WebhookStep(st, forms, body, hasFeed, now, importAmount);
      forall k :: k in st.entries && r.store.entries[k].status != st.entries[k].status ==>
        && body.Some? && k == EntryIdOf(body.value)
        && !IsFinal(st.entries[k].status)
        && var condition := Lower(body.value.condition.GetOr(""));
        && (r.store.entries[k].status == Paid <==> condition == "pendingsettlement")
        && (r.store.entries[k].status == Failed <==> condition in FailConditions)
        && IsFinal(r.store.entries[k].status)
  {
    if body.Some? && EntryIdOf(body.value) != 0 && EntryIdOf(body.value) in st.entries {
      var b := body.value;
      var entry := st.entries[EntryIdOf(b)];
      if !IsFinal(entry.status) && hasFeed(entry) {
        var captured := Captured(st, forms, b);
        var act := WebhookAction(b, EntryIdOf(b), entry.isFulfilled, now, importAmount);
        DispatchingPath(st, forms, b, hasFeed, now, importAmount);
        if act.Ok? {
          DeliverTransitions(captured, act.value);
          ActionKindMeansCondition(b, EntryIdOf(b), entry.isFulfilled, now, importAmount);
        }
      }
    }
  }

  /** The kind of a webhook action names the condition it came from. */
  lemma ActionKindMeansCondition(b: EventBody, entryId: int, isFulfilled: bool, now: nat, importAmount: AmountImport)
    requires WebhookAction(b, entryId, isFulfilled, now, importAmount).Ok?
    ensures var a := WebhookAction(b, entryId, isFulfilled, now, importAmount).value;
      var condition := Lower(b.condition.GetOr(""));
      && (a.kind == "complete_payment" <==> condition == "pendingsettlement")
      && (a.kind == "fail_payment" <==> condition in FailConditions)
      && a.kind != "add_pending_payment"
  {
  }

  /** The status changes `Deliver` can make: the action's entry, to the status its type names. */
  lemma DeliverTransitions(st: Store, a: Action)
    ensures var r := Deliver(st, a).store;
      forall k :: k in st.entries && r.entries[k].status != st.entries[k].status ==>
        && k == a.entryId
        && ((a.kind == "complete_payment" && r.entries[k].status == Paid)
            || (a.kind == "fail_payment" && r.entries[k].status == Failed)
            || (a.kind == "add_pending_payment" && r.entries[k].status == Pending))
  {
    OnlyTargetStatusChanges(st, a);
  }

  /**
   * The pending condition maps to `convesiopay_add_pending_payment`, a type
   * the dispatcher does not handle: the delivery succeeds but no status and
   * no ledger entry change.
   */
  lemma PendingWebhookIsInert(st: Store, forms: map<int, Form>, body: EventBody, hasFeed: FeedLookup, now: nat, importAmount: AmountImport)
    requires Lower(body.condition.GetOr("")) == "pending"
    ensures var r := WebhookStep(st, forms, Some(body), hasFeed, now, importAmount);
      && SameStatuses(st.entries, r.store.entries)
      && r.store.ledger == st.ledger
  {
    var entryId := EntryIdOf(body);
    if entryId != 0 && entryId in st.entries && !IsFinal(st.entries[entryId].status) && hasFeed(st.entries[entryId]) {
      var captured := Captured(st, forms, body);
      var act := WebhookAction(body, entryId, st.entries[entryId].isFulfilled, now, importAmount);
      DispatchingPath(st, forms, body, hasFeed, now, importAmount);
      PendingTypeMismatch(captured, act.value);
      assert Deliver(captured, act.value).store == captured;
    } else if entryId != 0 && entryId in st.entries && IsFinal(st.entries[entryId].status) {
      FinalEntryUntouched(st, forms, body, hasFeed, now, importAmount);
    }
  }

  /**
   * Settlement: for an existing, non-final entry with a feed, and a fresh
   * callback id, `pendingsettlement` makes the entry Paid, records the
   * callback id for it, and replies success.
   */
  lemma SettlementPays(st: Store, forms: map<int, Form>, body: EventBody, hasFeed: FeedLookup, now: nat, importAmount: AmountImport)
    requires Lower(body.condition.GetOr("")) == "pendingsettlement"
    requires EntryIdOf(body) != 0 && EntryIdOf(body) in st.entries
    requires !IsFinal(st.entries[EntryIdOf(body)].status) && hasFeed(st.entries[EntryIdOf(body)])
    requires CallbackId(body.transactionId.GetOr(""), now) !in st.ledger
    ensures var r := WebhookStep(st, forms, Some(body), hasFeed, now, importAmount);
      && r.response == Accepted
      && r.store.entries[EntryIdOf(body)].status == Paid
      && r.store.ledger == st.ledger[CallbackId(body.transactionId.GetOr(""), now) := EntryIdOf(body)]
  {
    DispatchingPath(st, forms, body, hasFeed, now, importAmount);
  }

  /** A failure condition makes such an entry Failed and records the callback id for it. */
  lemma FailureFails(st: Store, forms: map<int, Form>, body: EventBody, hasFeed: FeedLookup, now: nat, importAmount: AmountImport)
    requires Lower(body.condition.GetOr("")) in FailConditions
    requires EntryIdOf(body) != 0 && EntryIdOf(body) in st.entries
    requires !IsFinal(st.entries[EntryIdOf(body)].status) && hasFeed(st.entries[EntryIdOf(body)])
    requires CallbackId(body.transactionId.GetOr(""), now) !in st.ledger
    ensures var r := WebhookStep(st, forms, Some(body), hasFeed, now, importAmount);
      && r.response == Accepted
      && r.store.entries[EntryIdOf(body)].status == Failed
      && r.store.ledger == st.ledger[CallbackId(body.transactionId.GetOr(""), now) := EntryIdOf(body)]
  {
    DispatchingPath(st, forms, body, hasFeed, now, importAmount);
  }

  /** A delivery keeps every recorded callback pointing at a final entry. */
  lemma WebhookKeepsLedgerConsistent(st: Store, forms: map<int, Form>, body: Option<EventBody>, hasFeed: FeedLookup, now: nat, importAmount: AmountImport)
    requires LedgerConsistent(st)
    ensures LedgerConsistent(WebhookStep(st, forms, body, hasFeed, now, importAmount).store)
  {
    if body.Some? && EntryIdOf(body.value) != 0 && EntryIdOf(body.value) in st.entries {
      var b := body.value;
      var entry := st.entries[EntryIdOf(b)];
      if IsFinal(entry.status) {
        FinalEntryUntouched(st, forms, b, hasFeed, now, importAmount);
      } else if hasFeed(entry) {
        var captured := Captured(st, forms, b);
        var act := WebhookAction(b, EntryIdOf(b), entry.isFulfilled, now, importAmount);
        DispatchingPath(st, forms, b, hasFeed, now, importAmount);
        assert LedgerConsistent(captured);
        if act.Ok? {
          ActionKindMeansCondition(b, EntryIdOf(b), entry.isFulfilled, now, importAmount);
          DeliverKeepsLedgerConsistent(captured, act.value);
        }
      }
    }
  }

  /** `Deliver` keeps the ledger consistent for any action type but `add_pending_payment`, which records a non-final entry. */
  lemma DeliverKeepsLedgerConsistent(st: Store, a: Action)
    requires LedgerConsistent(st) && a.kind != "add_pending_payment"
    ensures LedgerConsistent(Deliver(st, a).store)
  {
    OnlyTargetStatusChanges(st, a);
    LedgerRecordsIff(st, a);
  }

  /**
   * Redelivery: once a delivery has settled or failed an entry, delivering
   * the same body again, at any time, is answered "already processed" and
   * changes no status and no ledger record.
   */
  lemma RedeliveryAfterSuccess(st: Store, forms: map<int, Form>, body: EventBody, hasFeed: FeedLookup, now: nat, now': nat, importAmount: AmountImport)
    requires EntryIdOf(body) in st.entries
    requires var r := WebhookStep(st, forms, Some(body), hasFeed, now, importAmount);
      r.store.entries[EntryIdOf(body)].status != st.entries[EntryIdOf(body)].status
    ensures var after := WebhookStep(st, forms, Some(body), hasFeed, now, importAmount).store;
      var again := WebhookStep(after, forms, Some(body), hasFeed, now', importAmount);
      && again.response == AlreadyProcessed
      && SameStatuses(after.entries, again.store.entries)
      && again.store.ledger == after.ledger
  {
    var after := WebhookStep(st, forms, Some(body), hasFeed, now, importAmount).store;
    StatusTransitions(st, forms, Some(body), hasFeed, now, importAmount);
    assert IsFinal(after.entries[EntryIdOf(body)].status);
    FinalEntryUntouched(after, forms, body, hasFeed, now', importAmount);
  }

  /**
   * With a consistent ledger, the `duplicate` reply can only come from a
   * callback id already recorded for a different entry (the same
   * transaction id within the same second): a repeat for the same entry is
   * stopped earlier as "already processed".
   */
  lemma DuplicateMeansOtherEntry(st: Store, forms: map<int, Form>, body: EventBody, hasFeed: FeedLookup, now: nat, importAmount: AmountImport)
    requires LedgerConsistent(st)
    requires WebhookStep(st, forms, Some(body), hasFeed, now, importAmount).response.ErrorReply?
    requires WebhookStep(st, forms, Some(body), hasFeed, now, importAmount).response.error.code == "duplicate"
    ensures var id := CallbackId(body.transactionId.GetOr(""), now);
      id in st.ledger && st.ledger[id] != EntryIdOf(body)
  {
  }
}
