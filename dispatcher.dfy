/**
 * The callback dispatcher (`convesiopay_process_callback_action`) as a
 * function on the entry store and the callback ledger.
 *
 * Assumption: the payment framework's `complete_payment`, `fail_payment`
 * and `add_pending_payment` set the entry's status to Paid, Failed and
 * Pending respectively and return true.
 */
module Dispatcher {
  import opened Wrappers
  import opened PhpStrings
  import opened Entries
  import opened Actions

  /**
   * The state the dispatcher reads and writes: the entries by id, and the
   * callback ledger, which maps each processed callback id to its entry id.
   */
  datatype Store = Store(entries: map<int, Entry>, ledger: map<string, int>)

  /** What the dispatcher returns: the `duplicate` error, or `$result`. */
  datatype CallbackOutcome = DuplicateCallback(callbackId: string) | Returned(result: bool)

  datatype Step = Step(store: Store, outcome: CallbackOutcome)

  /** The `WP_Error` the dispatcher returns for a callback id it has already processed. */
  function DuplicateError(callbackId: string): WpError {
    WpError("duplicate", "This callback has already been processed (Event Id: " + callbackId + ")", None)
  }

  /**
   * The `switch` on the action type for an entry in status `status`: the
   * status afterwards and `$result`. Each type has its own guard; any other
   * type, `convesiopay_add_pending_payment` included, does nothing.
   */
  function Transition(kind: string, status: PaymentStatus): (PaymentStatus, bool) {
    if kind == "complete_payment" then
      if status == Paid then (status, false) else (Paid, true)
    else if kind == "fail_payment" then
      if status == Failed then (status, true) else (Failed, true)
    else if kind == "add_pending_payment" then
      if status == Processing || status == Pending then (status, false) else (Pending, true)
    else (status, false)
  }

  /**
   * `convesiopay_process_callback_action`: the duplicate check, the entry
   * lookup, the guarded transition, then the ledger write when the action
   * carries an id and the result is truthy.
   */
  function Dispatch(st: Store, a: Action): (r: Step)
    ensures r.store.entries.Keys == st.entries.Keys
  {
    if !Empty(a.id) && a.id in st.ledger then Step(st, DuplicateCallback(a.id))
    else if a.entryId !in st.entries then Step(st, Returned(false))
    else
      var entry := st.entries[a.entryId];
      var (status, result) := Transition(a.kind, entry.status);
      var entries := if status == entry.status then st.entries else st.entries[a.entryId := entry.(status := status)];
      var ledger := if !Empty(a.id) && result then st.ledger[a.id := a.entryId] else st.ledger;
      Step(Store(entries, ledger), Returned(result))
  }

  /** Every recorded callback points at an existing entry whose payment is final. */
  predicate LedgerConsistent(st: Store) {
    forall id :: id in st.ledger ==> st.ledger[id] in st.entries && IsFinal(st.entries[st.ledger[id]].status)
  }

  /** An id already in the ledger is refused as `duplicate` and nothing changes. */
  lemma DuplicateChangesNothing(st: Store, a: Action)
    requires !Empty(a.id) && a.id in st.ledger
    ensures Dispatch(st, a) == Step(st, DuplicateCallback(a.id))
  {
  }

  /**
   * The guard of each action type, for a fresh id and an existing entry:
   * complete on Paid and pending on Processing/Pending are no-ops returning
   * false; fail on Failed changes no entry but returns true; an unknown type
   * changes nothing and returns false.
   */
  lemma Guards(st: Store, a: Action)
    requires !(!Empty(a.id) && a.id in st.ledger) && a.entryId in st.entries
    ensures var status := st.entries[a.entryId].status;
      && (a.kind == "complete_payment" && status == Paid ==> Dispatch(st, a) == Step(st, Returned(false)))
      && (a.kind == "fail_payment" && status == Failed ==>
            Dispatch(st, a).store.entries == st.entries && Dispatch(st, a).outcome == Returned(true))
      && (a.kind == "add_pending_payment" && (status == Processing || status == Pending) ==>
            Dispatch(st, a) == Step(st, Returned(false)))
      && (a.kind !in {"complete_payment", "fail_payment", "add_pending_payment"} ==>
            Dispatch(st, a) == Step(st, Returned(false)))
  {
  }

  /** The pending webhook's type is not one the dispatcher handles: it never reaches Pending. */
  lemma PendingTypeMismatch(st: Store, a: Action)
    requires a.kind == "convesiopay_add_pending_payment"
    ensures Dispatch(st, a).store == st
    ensures Dispatch(st, a).outcome != Returned(true)
  {
  }

  /** The ledger gains the action's id exactly when the id is truthy and the result is true, and nothing else. */
  lemma LedgerRecordsIff(st: Store, a: Action)
    ensures var step := Dispatch(st, a);
      step.store.ledger == if !Empty(a.id) && step.outcome == Returned(true) then st.ledger[a.id := a.entryId] else st.ledger
  {
  }

  /**
   * Redundant callbacks differ in the ledger: a repeated fail on a Failed
   * entry returns true and is recorded, a repeated complete on a Paid entry
   * returns false and is not.
   */
  lemma RedundantCallbacksInLedger(st: Store, a: Action)
    requires !Empty(a.id) && a.id !in st.ledger && a.entryId in st.entries
    ensures st.entries[a.entryId].status == Failed && a.kind == "fail_payment" ==>
      Dispatch(st, a) == Step(st.(ledger := st.ledger[a.id := a.entryId]), Returned(true))
    ensures st.entries[a.entryId].status == Paid && a.kind == "complete_payment" ==>
      Dispatch(st, a) == Step(st, Returned(false)) && a.id !in Dispatch(st, a).store.ledger
  {
  }

  /**
   * Only the named entry can change, only its status, only to what the
   * action's type names, and the set of entries stays the same.
   */
  lemma OnlyTargetStatusChanges(st: Store, a: Action)
    ensures var entries := Dispatch(st, a).store.entries;
      && entries.Keys == st.entries.Keys
      && (forall k :: k in st.entries && k != a.entryId ==> entries[k] == st.entries[k])
      && (a.entryId in st.entries ==>
            && entries[a.entryId] == st.entries[a.entryId].(status := entries[a.entryId].status)
            && (entries[a.entryId].status != st.entries[a.entryId].status ==>
                  || (a.kind == "complete_payment" && entries[a.entryId].status == Paid)
                  || (a.kind == "fail_payment" && entries[a.entryId].status == Failed)
                  || (a.kind == "add_pending_payment" && entries[a.entryId].status == Pending)))
  {
  }

  /**
   * The dispatcher itself does not protect final statuses: a complete on a
   * Failed entry makes it Paid, a fail on a Paid entry makes it Failed. Only
   * the webhook front door keeps such entries away from it.
   */
  lemma FinalStatusNotGuardedHere(st: Store, a: Action)
    requires !(!Empty(a.id) && a.id in st.ledger) && a.entryId in st.entries
    ensures st.entries[a.entryId].status == Failed && a.kind == "complete_payment" ==>
      Dispatch(st, a).store.entries[a.entryId].status == Paid
    ensures st.entries[a.entryId].status == Paid && a.kind == "fail_payment" ==>
      Dispatch(st, a).store.entries[a.entryId].status == Failed
  {
  }

  /**
   * Exactly once: once an action with an id has been applied with a true
   * result, delivering it again is refused as `duplicate` and changes nothing.
   */
  lemma AppliedOnce(st: Store, a: Action)
    requires !Empty(a.id) && Dispatch(st, a).outcome == Returned(true)
    ensures var after := Dispatch(st, a).store;
      Dispatch(after, a) == Step(after, DuplicateCallback(a.id))
  {
  }

  /** Applying the same action twice leaves the store as applying it once. */
  lemma {:induction false} DispatchIdempotent(st: Store, a: Action)
    ensures Dispatch(Dispatch(st, a).store, a).store == Dispatch(st, a).store
  {
    var step := Dispatch(st, a);
    if !(!Empty(a.id) && a.id in st.ledger) && a.entryId in st.entries {
      var entry := st.entries[a.entryId];
      var (status, result) := Transition(a.kind, entry.status);
      if !result || Empty(a.id) {
        // the second run sees the status the first one wrote
        var entry' := step.store.entries[a.entryId];
        assert entry'.status == status;
        assert Transition(a.kind, status) == (status, Transition(a.kind, status).1);
      }
    }
  }
}
