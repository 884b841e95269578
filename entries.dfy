/**
 * The Gravity Forms entries the gateway reconciles, the form fields it
 * searches, and the card-digit capture decisions of
 * `save_card_digits_to_field` and `save_card_digits_with_validation`.
 */
module Entries {
  import opened Wrappers
  import opened PhpStrings

  /** The `payment_status` strings that have a constructor of their own; "" is an unset status. */
  const NamedStatuses: set<string> := {"", "Processing", "Pending", "Paid", "Failed"}

  /** Any other status string the framework may store, such as "Refunded". */
  type OtherStatusName = s: string | s !in NamedStatuses witness "Refunded"

  /**
   * An entry's `payment_status`: unset, one the gateway writes, or any other
   * the framework knows. Each string has exactly one representation, so the
   * strict comparison with 'Paid' and 'Failed' is `IsFinal`.
   */
  datatype PaymentStatus = NoStatus | Processing | Pending | Paid | Failed | OtherStatus(name: OtherStatusName)

  /** The statuses the webhook front door treats as already processed. */
  predicate IsFinal(s: PaymentStatus) {
    s == Paid || s == Failed
  }

  /**
   * The parts of an entry the core reads or writes: its form (0 when
   * missing), payment status, transaction id ("" when missing), fulfilment
   * flag and field values by field id.
   */
  datatype Entry = Entry(formId: int, status: PaymentStatus, transactionId: string, isFulfilled: bool, values: map<int, string>)

  /** A form field: its id and label. */
  datatype Field = Field(id: int, labelText: string)

  /** A form's `fields`. */
  type Form = seq<Field>

  /** The webhook's `card` array; `cc_number` holds the masked card number. */
  type Card = map<string, string>

  const CardFieldLabel: string := "Card Last 4 Digits"

  /** `stripos($field->label, 'Card Last 4 Digits') !== false` */
  predicate IsCardField(f: Field) {
    Contains(Lower(CardFieldLabel), Lower(f.labelText))
  }

  /** The id of the first card-digits field, as the `foreach` with `break` finds it. */
  function FirstCardField(fields: seq<Field>): Option<int>
    decreases |fields|
  {
    if fields == [] then None
    else if IsCardField(fields[0]) then Some(fields[0].id)
    else FirstCardField(fields[1..])
  }

  /** The search loop of `save_card_digits_to_field`. */
  method FindCardField(fields: seq<Field>) returns (fieldId: Option<int>)
    ensures fieldId == FirstCardField(fields)
  {
    fieldId := None;
    var i := 0;
    while i < |fields|
      invariant 0 <= i <= |fields|
      invariant FirstCardField(fields[i..]) == FirstCardField(fields)
    {
      if IsCardField(fields[i]) {
        fieldId := Some(fields[i].id);
        return;
      }
      assert fields[i..][1..] == fields[i + 1..];
      i := i + 1;
    }
  }

  /** The search finds a field exactly when one matches, and then the first one that does. */
  lemma {:induction false} FirstCardFieldIsFirst(fields: seq<Field>)
    ensures FirstCardField(fields).None? <==> forall k :: 0 <= k < |fields| ==> !IsCardField(fields[k])
    ensures FirstCardField(fields).Some? ==>
      exists k :: 0 <= k < |fields| && IsCardField(fields[k]) && FirstCardField(fields).value == fields[k].id
        && forall j :: 0 <= j < k ==> !IsCardField(fields[j])
    decreases |fields|
  {
    if fields != [] {
      FirstCardFieldIsFirst(fields[1..]);
      if !IsCardField(fields[0]) && FirstCardField(fields).Some? {
        var k :| 0 <= k < |fields[1..]| && IsCardField(fields[1..][k]) && FirstCardField(fields[1..]).value == fields[1..][k].id
          && forall j :: 0 <= j < k ==> !IsCardField(fields[1..][j]);
        assert forall j :: 0 <= j < k + 1 ==> !IsCardField(fields[j]) by {
          forall j | 0 <= j < k + 1 ensures !IsCardField(fields[j]) {
            if j > 0 { assert fields[j] == fields[1..][j - 1]; }
          }
        }
      }
      if !IsCardField(fields[0]) && FirstCardField(fields).None? {
        forall k | 0 <= k < |fields| ensures !IsCardField(fields[k]) {
          if k > 0 { assert fields[k] == fields[1..][k - 1]; }
        }
      }
    }
  }

  /** A write the card capture performs: the value `digits` into field `fieldId`. */
  datatype CardWrite = CardWrite(fieldId: int, digits: string)

  /** `substr(rgar($card_data, 'cc_number'), -4)` */
  function CardDigits(card: Card): string {
    Tail(if "cc_number" in card then card["cc_number"] else "", 4)
  }

  /**
   * `save_card_digits_to_field` for an existing entry: the write it performs,
   * or `None` where it returns false (empty entry id, empty last four,
   * missing form, form without fields, no matching field, a falsy field id).
   */
  function CardWriteFor(entryId: int, entry: Entry, forms: map<int, Form>, card: Card): Option<CardWrite> {
    var last4 := CardDigits(card);
    if entryId == 0 || Empty(last4) then None
    else if entry.formId == 0 then None
    else if entry.formId !in forms || forms[entry.formId] == [] then None
    else
      match FirstCardField(forms[entry.formId])
      case None => None
      case Some(fieldId) => if fieldId == 0 then None else Some(CardWrite(fieldId, last4))
  }

  /**
   * `save_card_digits_with_validation`: the webhook's transaction id must be
   * non-empty and identical to the entry's before the plain capture runs.
   */
  function ValidatedCardWriteFor(entryId: int, entry: Entry, forms: map<int, Form>, card: Card, webhookTransactionId: string): Option<CardWrite> {
    if Empty(webhookTransactionId) then None
    else if entryId == 0 || Empty(entry.transactionId) then None
    else if webhookTransactionId != entry.transactionId then None
    else CardWriteFor(entryId, entry, forms, card)
  }

  /**
   * What the capture stores: at most the last four characters of `cc_number`,
   * never an `empty()` value, into the first card-digits field of the entry's form.
   */
  lemma CardWriteIsLastFour(entryId: int, entry: Entry, forms: map<int, Form>, card: Card)
    requires CardWriteFor(entryId, entry, forms, card).Some?
    ensures var w := CardWriteFor(entryId, entry, forms, card).value;
      && "cc_number" in card
      && |w.digits| == (if |card["cc_number"]| < 4 then |card["cc_number"]| else 4)
      && w.digits == card["cc_number"][|card["cc_number"]| - |w.digits|..]
      && !Empty(w.digits)
      && entry.formId in forms
      && exists k :: 0 <= k < |forms[entry.formId]| && IsCardField(forms[entry.formId][k]) && w.fieldId == forms[entry.formId][k].id
           && forall j :: 0 <= j < k ==> !IsCardField(forms[entry.formId][j])
  {
    FirstCardFieldIsFirst(forms[entry.formId]);
  }

  /** Digits are captured on the validated path only for a matching, non-empty transaction id, and then exactly as on the plain path. */
  lemma ValidatedWriteNeedsMatch(entryId: int, entry: Entry, forms: map<int, Form>, card: Card, webhookTransactionId: string)
    ensures var w := ValidatedCardWriteFor(entryId, entry, forms, card, webhookTransactionId);
      w.Some? <==> !Empty(webhookTransactionId) && webhookTransactionId == entry.transactionId
                   && CardWriteFor(entryId, entry, forms, card).Some?
    ensures var w := ValidatedCardWriteFor(entryId, entry, forms, card, webhookTransactionId);
      w.Some? ==> w == CardWriteFor(entryId, entry, forms, card)
  {
  }

  /** Applying a capture decision to the entry map: only the named entry's one field value changes. */
  function ApplyCardWrite(entries: map<int, Entry>, entryId: int, w: Option<CardWrite>): (r: map<int, Entry>)
    requires entryId in entries
    ensures r.Keys == entries.Keys
    ensures forall k :: k in entries && k != entryId ==> r[k] == entries[k]
    ensures r[entryId].status == entries[entryId].status
    ensures r[entryId].formId == entries[entryId].formId && r[entryId].transactionId == entries[entryId].transactionId
    ensures r[entryId].isFulfilled == entries[entryId].isFulfilled
    ensures w.None? ==> r == entries
    ensures w.Some? ==> r[entryId].values == entries[entryId].values[w.value.fieldId := w.value.digits]
  {
    match w
    case None => entries
    case Some(cw) =>
      var e := entries[entryId];
      entries[entryId := e.(values := e.values[cw.fieldId := cw.digits])]
  }

  /** The form field a capture for this entry can target: the first card-digits field of its form. */
  function CardFieldOf(entry: Entry, forms: map<int, Form>): Option<int> {
    if entry.formId in forms then FirstCardField(forms[entry.formId]) else None
  }

  /** Two value maps agree on every field id except possibly `field`. */
  ghost predicate AgreeOffField(before: map<int, string>, after: map<int, string>, field: Option<int>) {
    forall fid :: field != Some(fid) ==> (fid in before <==> fid in after) && (fid in before ==> after[fid] == before[fid])
  }

  /**
   * Both captures write only into the entry's card-digits field: every other
   * field of every entry keeps its presence and its value.
   */
  lemma CaptureTouchesOnlyCardField(entries: map<int, Entry>, entryId: int, forms: map<int, Form>, card: Card, webhookTransactionId: string, validated: bool)
    requires entryId in entries
    ensures var e := entries[entryId];
      var w := if validated then ValidatedCardWriteFor(entryId, e, forms, card, webhookTransactionId) else CardWriteFor(entryId, e, forms, card);
      var r := ApplyCardWrite(entries, entryId, w);
      forall k :: k in entries ==> AgreeOffField(entries[k].values, r[k].values, CardFieldOf(entries[k], forms))
  {
    var e := entries[entryId];
    var w := if validated then ValidatedCardWriteFor(entryId, e, forms, card, webhookTransactionId) else CardWriteFor(entryId, e, forms, card);
    if w.Some? {
      assert CardWriteFor(entryId, e, forms, card) == w;
      assert CardFieldOf(e, forms) == Some(w.value.fieldId);
    }
  }

  /** Writing the same capture twice stores the same thing as writing it once. */
  lemma ApplyCardWriteTwice(entries: map<int, Entry>, entryId: int, w: Option<CardWrite>)
    requires entryId in entries
    ensures ApplyCardWrite(ApplyCardWrite(entries, entryId, w), entryId, w) == ApplyCardWrite(entries, entryId, w)
  {
    if w.Some? {
      var once := ApplyCardWrite(entries, entryId, w);
      var twice := ApplyCardWrite(once, entryId, w);
      assert twice[entryId].values == once[entryId].values;
      assert twice[entryId] == once[entryId];
    }
  }
}
