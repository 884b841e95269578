# TailoredPay gateway: payment reconciliation, modelled in Dafny

This project models the payment-reconciliation core of the Gravity Forms
TailoredPay gateway add-on (`class-gf-tailoredpay-gateway.php`). The core
keeps an entry's `payment_status` consistent with what the payment
processor reports, over two paths:

- the **webhook** (`process_webhook`). It is authenticated by an HMAC
  signature header. A fixed sequence of guards runs before the settlement
  condition is mapped to an action. The callback dispatcher applies that
  action under a per-type status guard and a ledger of processed callback
  ids.
- the **synchronous charge** (`handle_ajax_payment`). It maps the
  processor's query-string reply to a complete or fail call.

Around these sit:

- the **return-URL token**: `ids=<form>|<entry>&hash=<wp_hash(...)>`, in
  base64.
- the **card-digit capture**: the last four characters of the masked card
  number go into the form's "Card Last 4 Digits" field.

## Layout

| file | module | what it holds |
|---|---|---|
| `wrappers.dfy` | `Wrappers` | `Option` |
| `php_strings.dfy` | `PhpStrings` | The PHP string built-ins the core relies on: `empty()`, `explode` (plain and with a limit of 2), `parse_str` on `&`/`=` pairs, `strtolower`, `ucfirst`, `stripos`, `substr($s, -4)`, `intval`, and decimal printing. |
| `webhook_signature.dfy` | `WebhookSignature` | The signature header scan, as a loop method proved against a fold over the parts. Also the acceptance predicate, and round-trip and tamper lemmas. |
| `return_token.dfy` | `ReturnToken` | Token issue and verification, with round-trip and splice-rejection lemmas. |
| `entries.dfy` | `Entries` | Entries, statuses and form fields. The field search, as a loop method against a recursive specification. The card capture decisions. |
| `actions.dfy` | `Actions` | The webhook condition table (`process_webhook_action`) and the charge-reply mapping. |
| `dispatcher.dfy` | `Dispatcher` | `convesiopay_process_callback_action` as a function on the entry store plus the ledger, with its guard and ledger lemmas. |
| `webhook.dfy` | `Webhook` | `process_webhook` as a function on the store, with frame, transition, ledger-consistency and redelivery lemmas. |
| `charge.dfy` | `Charge` | `handle_ajax_payment` as a function on the entries, with its lemmas. |
| `gateway.dfy` | `Gateway` | The `Gateway` class, holding entries, ledger, forms and submission data. Its methods work step by step and are each proved equal to the function above that specifies them. |

### Assumptions

- **Framework calls.** `complete_payment`, `fail_payment` and
  `add_pending_payment` belong to the Gravity Forms payment framework,
  which is not part of this model. They are taken to set the entry's
  payment status to Paid, Failed and Pending and to return true
  (`Gateway.Gateway.UpdatePaymentStatus`).
- **Callback table.** `is_duplicate_callback` and `register_callback` are
  taken to look up and insert into a table that maps a callback id to its
  entry id (`ledger`).
- **Function parameters.** HMAC-SHA256 (RFC 2104), `wp_hash`, base64
  (RFC 4648 section 4), `get_amount_import`, `GFCommon::to_money` and the
  feed lookup are all function parameters.
- **Named hypotheses.** Some lemmas need facts about those functions. They
  state them as named predicates in their hypotheses:
  - base64 decoding undoes encoding;
  - HMAC and `wp_hash` are collision-free.
- **Clock.** `time()` is the parameter `now`.
- **Status strings.** Each `payment_status` string has one representation: "", `Processing`, `Pending`, `Paid` and `Failed` have their own constructors, and `OtherStatus` takes any other string (`Entries.OtherStatusName`). So `Entries.IsFinal` is exactly the strict `in_array` test of line 151.

### The pending condition never reaches the dispatcher's pending branch

`process_webhook_action` maps the condition `pending` to the action type
`convesiopay_add_pending_payment` (line 532). The dispatcher's `switch`
only handles `add_pending_payment` (line 429). So a pending webhook falls
through the `switch` with `$result = false`. It changes no status, records
nothing, and is still answered 200 `success`. The model keeps this exactly
as written:

- `Dispatcher.PendingTypeMismatch` proves it for the dispatcher;
- `Webhook.PendingWebhookIsInert` proves it for a whole delivery;
- `Webhook.StatusTransitions` proves that a webhook only ever moves an
  entry to Paid or Failed.

### Missing entries and missing keys in the charge

- **Missing entry.** `handle_ajax_payment` checks `! $entry` (line 790).
  The entry lookup reports a missing entry with an error object, which is
  truthy, so that guard never fires.
  - If the entry has no submission data, the request ends at "Submission
    data not found".
  - Otherwise it reaches `$entry['currency']` (line 814) on the error
    object, which is a fatal error.

  The model follows the code (`Charge.ChargeStep`, reply `FatalError`).
- **Missing `transactionid`.** An approved reply without `transactionid`
  reads a missing key (line 853). The model gives "" there.

## Model

| member | source | states |
|---|---|---|
| `PhpStrings.Explode` | class-gf-tailoredpay-gateway.php:77 | `explode`: at least one piece, no piece contains the separator, and joining the pieces with it gives back the input |
| `PhpStrings.ExplodeJoin` | class-gf-tailoredpay-gateway.php:585 | Exploding the join of separator-free pieces gives back those pieces |
| `PhpStrings.SplitFirst` | class-gf-tailoredpay-gateway.php:82 | `explode('=', $part, 2)`: the key holds no `=`; with no `=` the key is the whole part and the value is absent; otherwise part = key + `=` + value |
| `PhpStrings.ParseTwoPairs` | class-gf-tailoredpay-gateway.php:574 | `parse_str` of `k1=v1&k2=v2` (distinct keys, no `&`, no `=` in keys) yields exactly those two pairs |
| `PhpStrings.Empty` | class-gf-tailoredpay-gateway.php:66 | PHP's `empty()` on a string: true exactly for "" and "0" (a missing value is modelled as "") |
| `PhpStrings.ParseQuery` | class-gf-tailoredpay-gateway.php:845 | `parse_str`: splits on `&`, each pair on its first `=`, skips empty keys, a later key overwrites an earlier one, a pair without `=` maps to "" |
| `PhpStrings.Lower` | class-gf-tailoredpay-gateway.php:502 | `strtolower`: every ASCII capital letter lowered, every other character kept, length unchanged |
| `PhpStrings.Contains` | class-gf-tailoredpay-gateway.php:359 | `strpos(hay, needle) !== false`: the needle occurs at some position of the hay |
| `PhpStrings.IntVal` | class-gf-tailoredpay-gateway.php:128 | `intval` on a string: leading blanks, an optional sign, then the value of the leading digits, 0 when there are none |
| `PhpStrings.Tail` | class-gf-tailoredpay-gateway.php:337 | `substr($s, -4)`: the last min(length of s, 4) characters of s |
| `PhpStrings.IntValRoundTrip` | class-gf-tailoredpay-gateway.php:128 | `intval` reads back any printed integer |
| `PhpStrings.DecimalInjective` | class-gf-tailoredpay-gateway.php:560 | Different numbers print differently, so ids interpolated into the token are unambiguous |
| `WebhookSignature.Scan` | class-gf-tailoredpay-gateway.php:77-88 | The fold over the comma parts: a part whose key before the first `=` is `t` sets the timestamp, `s` the signature (PHP's null value counting as ""), any other part nothing; both start empty |
| `WebhookSignature.Accepts` | class-gf-tailoredpay-gateway.php:66-100 | The acceptance condition, guard by guard: secret not `empty()`, header present and truthy, scanned `t` and `s` not `empty()`, and `s` equal to HMAC(secret, `t . "." . body`) |
| `WebhookSignature.ParseSignatureHeader` | class-gf-tailoredpay-gateway.php:77-88 | The `foreach` over the comma parts leaves in `$timestamp`/`$signature` exactly what the fold `Scan` over the parts computes |
| `WebhookSignature.VerifyWebhookSignature` | class-gf-tailoredpay-gateway.php:62-105 | Returns true iff secret non-empty, header present and non-empty, `t` and `s` non-empty in the `empty()` sense, and `s` equals HMAC(secret, `t.body`) |
| `WebhookSignature.LastOccurrenceWins` | class-gf-tailoredpay-gateway.php:81-88 | A later `t` (or `s`) part overwrites an earlier one: the scan holds the value of the last part with that key |
| `WebhookSignature.AbsentKeyStaysEmpty` | class-gf-tailoredpay-gateway.php:78-79 | A key that no part carries keeps its initial empty value |
| `WebhookSignature.MissingTimestampRejected` | class-gf-tailoredpay-gateway.php:90-92 | A header with no `t=` part is rejected whatever else it holds |
| `WebhookSignature.ScanTwoParts` | class-gf-tailoredpay-gateway.php:77-88 | The header `t=<ts>,s=<sig>` scans to exactly (ts, sig) |
| `WebhookSignature.SignedHeaderAccepted` | class-gf-tailoredpay-gateway.php:96-100 | Round trip: a header built as `t=<ts>,s=HMAC(secret, ts.body)` is accepted for that body |
| `WebhookSignature.ZeroTimestampRejected` | class-gf-tailoredpay-gateway.php:90-92 | `empty("0")` holds, so `t=0` is rejected even with the right signature |
| `WebhookSignature.BodyTamperRejected` | class-gf-tailoredpay-gateway.php:96-104 | With collision-free HMAC, a header accepted for one body is rejected for any other body |
| `WebhookSignature.TimestampTamperRejected` | class-gf-tailoredpay-gateway.php:96-104 | With collision-free HMAC, two accepted headers with the same signature for one body carry the same timestamp |
| `WebhookSignature.SignatureTamperRejected` | class-gf-tailoredpay-gateway.php:96-104 | For one timestamp and body only one signature is accepted |
| `ReturnToken.IssueToken` | class-gf-tailoredpay-gateway.php:560-562 | The token: base64 of `ids=F|E&hash=` followed by `wp_hash` of `ids=F|E` |
| `ReturnToken.VerifyToken` | class-gf-tailoredpay-gateway.php:567-585 | The token check: a falsy argument, a decoded text without both `ids` and `hash`, or a `hash` other than `wp_hash('ids=' . ids)` yields nothing; otherwise the first piece of `ids` split on the bar and the second piece, absent when there is no bar |
| `ReturnToken.PlainIds` | class-gf-tailoredpay-gateway.php:585 | Splitting `ids` on the bar, for ids without `&` or a bar, gives back the form and entry ids |
| `ReturnToken.IdsQueryInjective` | class-gf-tailoredpay-gateway.php:560 | Distinct ids give distinct `ids=` texts |
| `ReturnToken.ParseTokenText` | class-gf-tailoredpay-gateway.php:574 | The decoded token text parses to exactly its `ids` and `hash` values |
| `ReturnToken.TokenRoundTrip` | class-gf-tailoredpay-gateway.php:552-585 | A token issued by `return_url` for form F and entry E verifies and yields F and E (assuming base64 round-trips and a tag without `&`) |
| `ReturnToken.PlainTokenRoundTrip` | class-gf-tailoredpay-gateway.php:552-585 | The same round trip for any ids without `&` or a bar |
| `ReturnToken.SplicedTagRejected` | class-gf-tailoredpay-gateway.php:580-583 | With collision-free `wp_hash`, the tag of one form and entry placed on different ids is rejected |
| `ReturnToken.PlainSplicedTagRejected` | class-gf-tailoredpay-gateway.php:580-583 | The same rejection for any ids without `&` or a bar |
| `ReturnToken.AcceptsIffTagMatches` | class-gf-tailoredpay-gateway.php:567-583 | Given a truthy argument whose decoded text holds `ids` and `hash`, verification succeeds iff `hash == wp_hash('ids=' . ids)` |
| `Entries.IsCardField` | class-gf-tailoredpay-gateway.php:359 | A field matches when its label contains "Card Last 4 Digits", ignoring ASCII letter case |
| `Entries.FirstCardField` | class-gf-tailoredpay-gateway.php:356-363 | The id of the first matching field of the form, or none |
| `Entries.CardWriteFor` | class-gf-tailoredpay-gateway.php:336-370 | The write `save_card_digits_to_field` performs: none when the entry id or the last four is `empty()`, the form id is 0, the form is missing or has no fields, no field matches or its id is 0; otherwise the last four into the matching field |
| `Entries.ValidatedCardWriteFor` | class-gf-tailoredpay-gateway.php:305-325 | The write `save_card_digits_with_validation` performs: none for an `empty()` webhook transaction id, entry id or entry transaction id, or for ids that differ; otherwise the plain capture's write |
| `Entries.CaptureTouchesOnlyCardField` | class-gf-tailoredpay-gateway.php:356-370 | Either capture, applied, leaves every field id of every entry other than the first card-digits field of that entry's form unchanged in presence and value |
| `Entries.FindCardField` | class-gf-tailoredpay-gateway.php:356-363 | The `foreach`/`break` search returns what `FirstCardField` specifies |
| `Entries.FirstCardFieldIsFirst` | class-gf-tailoredpay-gateway.php:357-363 | No field is found iff no label contains "Card Last 4 Digits" (case-insensitively); otherwise the field found is the first one whose label does |
| `Entries.CardWriteIsLastFour` | class-gf-tailoredpay-gateway.php:336-370 | A capture stores the last min(length of `cc_number`, 4) characters, never an `empty()` value, into the first matching field of the entry's form |
| `Entries.ValidatedWriteNeedsMatch` | class-gf-tailoredpay-gateway.php:303-326 | The validated capture writes iff the webhook transaction id is non-empty and identical to the entry's and the plain capture would write, and then writes the same thing |
| `Entries.ApplyCardWrite` | class-gf-tailoredpay-gateway.php:370 | `update_entry_field` changes only the named field of the named entry; no status, form, transaction id or other entry changes |
| `Entries.ApplyCardWriteTwice` | class-gf-tailoredpay-gateway.php:370 | Writing the same capture twice stores the same as writing it once |
| `Actions.CallbackId` | class-gf-tailoredpay-gateway.php:507 | The callback id `transaction_id . '_' . time()` is never `empty()`, so it always reaches the duplicate check |
| `Actions.WebhookAction` | class-gf-tailoredpay-gateway.php:498-541 | Lower-cased `pendingsettlement` gives `complete_payment` (with `ready_to_fulfill = !is_fulfilled`), the five failure conditions give `fail_payment`, `pending` gives `convesiopay_add_pending_payment`, anything else gives `unhandled_status` (400). In each case the id is `CallbackId(transaction_id, now)` and the entry id and transaction id are carried over |
| `Actions.ConditionCaseInsensitive` | class-gf-tailoredpay-gateway.php:502 | Conditions equal up to letter case give the same action |
| `Actions.ChargeActionFor` | class-gf-tailoredpay-gateway.php:849-882 | `response == '1'` gives `complete_payment` with `amount` or the submission amount; anything else gives `fail_payment` with the submission amount, `transactionid` or `N/A`, and `responsetext` or the default reason |
| `Actions.DeclineNoteIsComplete` | class-gf-tailoredpay-gateway.php:869-875 | The text of the failure note (`Actions.NoteText`) contains the formatted amount, the transaction id and the reason |
| `Dispatcher.Transition` | class-gf-tailoredpay-gateway.php:411-436 | The `switch`: complete sets Paid with true unless already Paid (false); fail sets Failed and returns true either way; add-pending sets Pending with true unless Processing or Pending (false); any other type keeps the status with false |
| `Dispatcher.Dispatch` | class-gf-tailoredpay-gateway.php:380-445 | The whole dispatcher: a truthy id already in the ledger gives `duplicate` and no change; a missing entry gives false and no change; otherwise the entry takes the status `Transition` gives, and the ledger records the id for the entry when it is truthy and the result true |
| `Dispatcher.DuplicateChangesNothing` | class-gf-tailoredpay-gateway.php:398-400 | A truthy id already in the ledger is refused as `duplicate` and nothing changes |
| `Dispatcher.Guards` | class-gf-tailoredpay-gateway.php:411-436 | For a fresh id and an existing entry: complete on Paid is a no-op with false; fail on Failed changes no entry and returns true; pending on Processing/Pending is a no-op with false; any other type is a no-op with false |
| `Dispatcher.PendingTypeMismatch` | class-gf-tailoredpay-gateway.php:429-436 | An action of type `convesiopay_add_pending_payment` changes nothing and never returns true |
| `Dispatcher.LedgerRecordsIff` | class-gf-tailoredpay-gateway.php:438-440 | The ledger gains the action's id, for its entry, iff the id is truthy and the result is true; otherwise it is unchanged |
| `Dispatcher.RedundantCallbacksInLedger` | class-gf-tailoredpay-gateway.php:412-440 | A repeated fail on a Failed entry is recorded and returns true; a repeated complete on a Paid entry is not recorded and returns false |
| `Dispatcher.OnlyTargetStatusChanges` | class-gf-tailoredpay-gateway.php:405-436 | No entry appears or disappears. Only the action's entry changes, and only its status, to the status its type names |
| `Dispatcher.FinalStatusNotGuardedHere` | class-gf-tailoredpay-gateway.php:412-427 | The dispatcher's own guards leave final statuses open: complete on Failed gives Paid, fail on Paid gives Failed |
| `Dispatcher.AppliedOnce` | class-gf-tailoredpay-gateway.php:398-440 | Once an action with an id has returned true, delivering it again is refused as `duplicate` and changes nothing |
| `Dispatcher.DispatchIdempotent` | class-gf-tailoredpay-gateway.php:398-440 | Applying the same action twice leaves the store as applying it once |
| `Webhook.EntryIdOf` | class-gf-tailoredpay-gateway.php:128 | `intval` of `merchant_defined_fields['1']`, or 0 when that key is absent |
| `Webhook.WebhookStep` | class-gf-tailoredpay-gateway.php:113-186 | One delivery, guard by guard: missing body 400; entry id 0 ignored (200); missing entry 200; Paid/Failed entry gets only the validated capture and 200 "already processed"; no feed `feed_not_found`; else capture, action, and the action's error or the dispatcher's outcome |
| `Webhook.Captured` | class-gf-tailoredpay-gateway.php:455-488 | The fresh-entry capture: when the body carries a non-empty `card`, the plain capture's write applied to the named entry |
| `Webhook.Deliver` | class-gf-tailoredpay-gateway.php:182-186 | The dispatcher's `duplicate` error is returned as the reply; any `$result`, true or false, is a 200 success |
| `Webhook.DispatchingPath` | class-gf-tailoredpay-gateway.php:176-186 | Past the guards, a delivery is: card capture, then the action, then either its error or the dispatcher's outcome |
| `Webhook.WebhookFrame` | class-gf-tailoredpay-gateway.php:113-226 | A delivery changes only the named entry, and of it only its status and its card-digits field: its form, transaction id and fulfilment flag stay, and every other field id keeps its presence and value. The ledger only gains the delivery's callback id, for that entry |
| `Webhook.WebhookFieldFrame` | class-gf-tailoredpay-gateway.php:150-186 | Of all field values, a delivery (already-processed capture or fresh-entry capture plus dispatch) changes at most the first card-digits field of each entry's form |
| `Webhook.CapturedFrame` | class-gf-tailoredpay-gateway.php:455-488 | The fresh-entry capture changes only the named entry, keeps every status and the ledger, and of the entry's values touches only its card-digits field |
| `Webhook.DeliverFrame` | class-gf-tailoredpay-gateway.php:180-184 | Dispatching changes only the action's entry's status and may add only the action's id to the ledger |
| `Webhook.FailedDeliveryChangesNoStatus` | class-gf-tailoredpay-gateway.php:118-186 | Every reply but the plain 200 success leaves all statuses and the ledger unchanged: missing body, no entry id, missing entry, already processed, no feed, unhandled status, duplicate |
| `Webhook.FinalEntryUntouched` | class-gf-tailoredpay-gateway.php:150-167 | A Paid or Failed entry keeps its status and the ledger, and the reply is "Entry already processed." |
| `Webhook.StatusTransitions` | class-gf-tailoredpay-gateway.php:113-226 | The only status change a delivery makes is to the named, non-final entry: to Paid iff the condition is `pendingsettlement`, to Failed iff it is a failure condition. The webhook never sets Pending |
| `Webhook.DeliverTransitions` | class-gf-tailoredpay-gateway.php:411-436 | Dispatching changes only the action's entry, to Paid, Failed or Pending as its type names |
| `Webhook.PendingWebhookIsInert` | class-gf-tailoredpay-gateway.php:531-533 | A `pending` webhook changes no status and no ledger record |
| `Webhook.SettlementPays` | class-gf-tailoredpay-gateway.php:176-225 | For an existing non-final entry with a feed and a fresh callback id, `pendingsettlement` makes the entry Paid, records the callback id for it, and replies 200 success |
| `Webhook.FailureFails` | class-gf-tailoredpay-gateway.php:176-225 | Under the same conditions, a failure condition makes the entry Failed and records the callback id |
| `Webhook.WebhookKeepsLedgerConsistent` | class-gf-tailoredpay-gateway.php:113-226 | If every recorded callback names an existing final entry before a delivery, that still holds after it |
| `Webhook.DeliverKeepsLedgerConsistent` | class-gf-tailoredpay-gateway.php:411-440 | Dispatching any type other than `add_pending_payment` keeps every recorded callback pointing at a final entry |
| `Webhook.RedeliveryAfterSuccess` | class-gf-tailoredpay-gateway.php:150-167 | After a delivery has settled or failed an entry, the same body delivered again at any time is answered "already processed" and changes no status or ledger record |
| `Webhook.DuplicateMeansOtherEntry` | class-gf-tailoredpay-gateway.php:398-400 | With a consistent ledger, a `duplicate` reply can only come from the same callback id recorded for a different entry |
| `Charge.ApplyCharge` | class-gf-tailoredpay-gateway.php:858-884 | `complete_payment` sets the entry Paid and `fail_payment` sets it Failed, whatever its status was |
| `Charge.ChargeStep` | class-gf-tailoredpay-gateway.php:780-886 | One charge request: bad nonce, no submission data, missing entry (fatal), transport error, or the parsed reply mapped by `ChargeActionFor` and applied by `ApplyCharge`, answering success or the decline reason |
| `Charge.EarlyExitChangesNothing` | class-gf-tailoredpay-gateway.php:780-842 | A bad nonce, missing submission data, a missing entry or a transport error changes no entry and is never a success |
| `Charge.ReplyDecidesStatus` | class-gf-tailoredpay-gateway.php:845-886 | A parsed reply sets the entry to Paid with a success answer iff `response` is "1"; otherwise to Failed with the `responsetext` or the default reason. Nothing else changes |
| `Charge.DeclineOverridesPaid` | class-gf-tailoredpay-gateway.php:866-885 | This path has no status guard: a decline turns a Paid entry into Failed |
| `Charge.ApprovalReplyCompletes` | class-gf-tailoredpay-gateway.php:845-858 | The reply `response=1&transactionid=<t>` completes the payment under `t` with the submission amount |
| `Charge.ChargeKeepsLedgerConsistent` | class-gf-tailoredpay-gateway.php:849-886 | The charge only writes Paid or Failed, so every recorded callback still names a final entry |
| `Gateway.Gateway.IsDuplicateCallback` | class-gf-tailoredpay-gateway.php:398 | True iff the id is in the callback table |
| `Gateway.Gateway.RegisterCallback` | class-gf-tailoredpay-gateway.php:438-440 | Records the id for the entry; nothing else changes |
| `Gateway.Gateway.UpdatePaymentStatus` | class-gf-tailoredpay-gateway.php:416-433 | The assumed effect of the framework's complete, fail and pending calls: only the entry's status changes |
| `Gateway.Gateway.ProcessCallbackAction` | class-gf-tailoredpay-gateway.php:380-445 | The new entries and ledger and the outcome are exactly those of `Dispatcher.Dispatch`; forms and submissions are unchanged |
| `Gateway.Gateway.SaveCardDigitsToField` | class-gf-tailoredpay-gateway.php:329-379 | Returns true iff `Entries.CardWriteFor` decides a write, and the entries become that write applied |
| `Gateway.Gateway.SaveCardDigitsWithValidation` | class-gf-tailoredpay-gateway.php:303-327 | Returns true iff `Entries.ValidatedCardWriteFor` decides a write, and the entries become that write applied |
| `Gateway.Gateway.ProcessWebhook` | class-gf-tailoredpay-gateway.php:113-226 | The new entries and ledger and the reply are exactly those of `Webhook.WebhookStep`, and a ledger whose every record names an existing final entry stays so |
| `Gateway.Gateway.HandleAjaxPayment` | class-gf-tailoredpay-gateway.php:780-886 | The new entries and the answer are exactly those of `Charge.ChargeStep`; the ledger is untouched, and stays consistent if it was |
| `Gateway.Gateway.RedirectUrl` | class-gf-tailoredpay-gateway.php:544-562 | Sets the entry Processing, stores its submission data, and returns the token `return_url` encodes for the form and entry |

## Left out

- Page handling after the token check in `maybe_process_tailoredpay_page`: form and entry loading, and the branch on `$payment_status`. That variable is never assigned, because its assignment is commented out. The model stops at the verified ids.
- Building the return URL (scheme, host, port, request URI, `add_query_arg`). The model returns the token only.
- The commented-out event-type `switch` in `process_webhook`. It is dead code.
- Everything the framework does in `complete_payment`, `fail_payment` and `add_pending_payment` beyond setting the status: amount, date, transaction id, fulfilment, notes, notifications. Also the `do_action` hooks and `error_log`.
- `Gateway.Gateway.UpdatePaymentStatus`: states only the status change, because the framework's other writes are not visible.
- Actions' `note`, `amount`, `payment_method` and `payment_date` fields are built but not tied to any state. A note is kept as its template and filled-in values (`Actions.Note`); `Actions.NoteText` gives the text. Money formatting and `get_amount_import` are function parameters.
- The HTTP request in `handle_ajax_payment`: building its fields, `array_filter`, `number_format`, and the call. The processor's answer is a parameter.
- The confirmation redirect is also left out: the success answer carries no URL.
- `Actions.ChargeActionFor`: compares `response` with "1" as strings. PHP's loose `==` would also accept numeric strings such as "1.0" or "01".
- `PhpStrings.ParseQuery`: splits on `&` and on the first `=` and keeps the last value per key. It does no percent- or `+`-decoding and no `a[]` array keys.
- `PhpStrings.IntVal`: reads optional leading whitespace, a sign and decimal digits. It does not model exponent notation, hexadecimal or octal prefixes, or clamping to the 64-bit range.
- `PhpStrings.Lower`: folds ASCII letters only, as `strtolower` does for ASCII. `Entries.IsCardField` uses it for `stripos`.
- Gateway.Gateway.SaveCardDigitsToField: `GFAPI::update_entry_field` is taken to succeed. Its `WP_Error` path (lines 372-375: nothing written, false returned) is not modelled, so "true iff `CardWriteFor` decides a write" holds only for a store that accepts the write.
- Gateway.Gateway.RedirectUrl: sets Processing unconditionally, as line 545 does. On an entry that is already Paid or Failed this would break `Dispatcher.LedgerConsistent`; no lemma claims that `RedirectUrl` keeps it.
- `sanitize_text_field` on the card digits and the payment token is taken as the identity.
- Type confusion is not modelled: an `event_body`, entry or card that is not an array, and the `is_object` field check. The model's types rule these out.
- HMAC, `wp_hash`, base64 and the feed lookup are function parameters. `hash_equals` is plain equality; constant-time comparison is not modelled.
- `time()` is the parameter `now`.
- Concurrency: webhook and charge requests may interleave. The model treats each request as one atomic step.
