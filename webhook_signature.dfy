/**
 * The webhook signature check (`verify_webhook_signature`): the processor
 * signs `<t>.<raw body>` with HMAC-SHA256 (RFC 2104) under the shared signing
 * secret and sends `t=<t>,s=<hex signature>` in the `webhook_signature` header.
 */
module WebhookSignature {
  import opened Wrappers
  import opened PhpStrings

  /** `hash_hmac('sha256', message, key)` taken as an uninterpreted function of (key, message). */
  type Hmac = (string, string) -> string

  /** The two values the header scan keeps. */
  datatype HeaderFields = HeaderFields(timestamp: string, signature: string)

  /** The key of one comma-separated part: the text before its first `=`. */
  function KeyOf(part: string): string {
    SplitFirst('=', part).0
  }

  /** The value of one part: the text after its first `=`; PHP's `null` when there is none, which is `empty()` like "". */
  function ValueOf(part: string): string {
    SplitFirst('=', part).1.GetOr("")
  }

  /** One step of the `foreach`: a `t` part sets the timestamp, an `s` part the signature, any other part nothing. */
  function ScanPart(acc: HeaderFields, part: string): HeaderFields {
    if KeyOf(part) == "t" then acc.(timestamp := ValueOf(part))
    else if KeyOf(part) == "s" then acc.(signature := ValueOf(part))
    else acc
  }

  /** What the `foreach` holds after the given parts, starting from two empty strings. */
  function Scan(parts: seq<string>): HeaderFields
    decreases |parts|
  {
    if parts == [] then HeaderFields("", "")
    else ScanPart(Scan(parts[..|parts| - 1]), parts[|parts| - 1])
  }

  /** The field of the scan a key selects. */
  function Selected(f: HeaderFields, key: string): string {
    if key == "t" then f.timestamp else f.signature
  }

  /** The header scan: split on `,`, split each part on its first `=`, keep the last `t` and the last `s`. */
  method ParseSignatureHeader(header: string) returns (timestamp: string, signature: string)
    ensures HeaderFields(timestamp, signature) == Scan(Explode(',', header))
  {
    var parts := Explode(',', header);
    timestamp, signature := "", "";
    var i := 0;
    while i < |parts|
      invariant 0 <= i <= |parts|
      invariant HeaderFields(timestamp, signature) == Scan(parts[..i])
    {
      var (key, value) := SplitFirst('=', parts[i]);
      if key == "t" {
        timestamp := value.GetOr("");
      } else if key == "s" {
        signature := value.GetOr("");
      }
      assert parts[..i + 1][..i] == parts[..i];
      i := i + 1;
    }
    assert parts[..|parts|] == parts;
  }

  /**
   * When the check accepts: a configured secret, a header that is present,
   * a non-empty `t` and `s`, and `s` equal to the HMAC of `t . "." . body`.
   */
  predicate Accepts(hmac: Hmac, secret: string, header: Option<string>, body: string) {
    && !Empty(secret)
    && header.Some? && !Empty(header.value)
    && var f := Scan(Explode(',', header.value));
    && !Empty(f.timestamp) && !Empty(f.signature)
    && f.signature == hmac(secret, f.timestamp + "." + body)
  }

  /**
   * `verify_webhook_signature`: `secret` is the `webhook_signing_secret`
   * setting ("" when unset), `header` the request's header, `body` its raw
   * body. `hash_equals` is taken as plain equality.
   */
  method VerifyWebhookSignature(hmac: Hmac, secret: string, header: Option<string>, body: string) returns (ok: bool)
    ensures ok == Accepts(hmac, secret, header, body)
  {
    if Empty(secret) {
      return false;
    }
    if header.None? || Empty(header.value) {
      return false;
    }
    var timestamp, signature := ParseSignatureHeader(header.value);
    if Empty(timestamp) || Empty(signature) {
      return false;
    }
    var expected := hmac(secret, timestamp + "." + body);
    ok := expected == signature;
  }

  /**
   * A later occurrence of a key overwrites an earlier one: the scan holds the
   * value of the last part whose key is `t` (or `s`).
   */
  lemma {:induction false} LastOccurrenceWins(parts: seq<string>, key: string, j: nat)
    requires key == "t" || key == "s"
    requires j < |parts| && KeyOf(parts[j]) == key
    requires forall k :: j < k < |parts| ==> KeyOf(parts[k]) != key
    ensures Selected(Scan(parts), key) == ValueOf(parts[j])
    decreases |parts|
  {
    var init := parts[..|parts| - 1];
    if j < |parts| - 1 {
      assert forall k :: j < k < |init| ==> init[k] == parts[k];
      LastOccurrenceWins(init, key, j);
    }
  }

  /** A key that no part carries stays empty, and `empty()` then rejects. */
  lemma {:induction false} AbsentKeyStaysEmpty(parts: seq<string>, key: string)
    requires key == "t" || key == "s"
    requires forall k :: 0 <= k < |parts| ==> KeyOf(parts[k]) != key
    ensures Selected(Scan(parts), key) == ""
    decreases |parts|
  {
    if parts != [] {
      var init := parts[..|parts| - 1];
      assert forall k :: 0 <= k < |init| ==> init[k] == parts[k];
      AbsentKeyStaysEmpty(init, key);
    }
  }

  /** A header with no `t=` part is rejected whatever else it holds. */
  lemma MissingTimestampRejected(hmac: Hmac, secret: string, header: string, body: string)
    requires forall p :: p in Explode(',', header) ==> KeyOf(p) != "t"
    ensures !Accepts(hmac, secret, Some(header), body)
  {
    var parts := Explode(',', header);
    assert forall k :: 0 <= k < |parts| ==> parts[k] in parts;
    AbsentKeyStaysEmpty(parts, "t");
  }

  /** A `key=value` part has that key and that value. */
  lemma KeyValueOf(key: string, value: string)
    requires '=' !in key
    ensures KeyOf(key + "=" + value) == key && ValueOf(key + "=" + value) == value
  {
    assert key + "=" + value == key + ['='] + value;
    SplitFirstAtKey('=', key, value);
  }

  /** The scan of two parts applies the step to each in turn. */
  lemma ScanOfTwo(p1: string, p2: string)
    ensures Scan([p1, p2]) == ScanPart(ScanPart(HeaderFields("", ""), p1), p2)
  {
    var parts := [p1, p2];
    assert parts[..1] == [p1] && parts[1] == p2;
    assert Scan(parts) == ScanPart(Scan([p1]), p2);
    assert [p1][..0] == [];
    assert Scan([p1]) == ScanPart(Scan([]), p1);
  }

  /** A header of two comma-free parts scans each part in turn. */
  lemma ScanOfHeader(p1: string, p2: string)
    requires ',' !in p1 && ',' !in p2
    ensures Scan(Explode(',', p1 + [','] + p2)) == ScanPart(ScanPart(HeaderFields("", ""), p1), p2)
  {
    ExplodeTwo(',', p1, p2);
    ScanOfTwo(p1, p2);
  }

  /** The parts `t=<ts>` and `s=<sig>`, scanned in that order, give that timestamp and signature. */
  lemma ScanOfTimestampAndSignature(ts: string, sig: string)
    ensures ScanPart(ScanPart(HeaderFields("", ""), "t" + "=" + ts), "s" + "=" + sig) == HeaderFields(ts, sig)
  {
    KeyValueOf("t", ts);
    KeyValueOf("s", sig);
  }

  /** The header `t=<ts>,s=<sig>` scans to exactly that timestamp and signature. */
  lemma ScanTwoParts(ts: string, sig: string)
    requires ',' !in ts && ',' !in sig
    ensures Scan(Explode(',', "t=" + ts + ",s=" + sig)) == HeaderFields(ts, sig)
  {
    var p1, p2 := "t" + "=" + ts, "s" + "=" + sig;
    assert "t=" + ts + ",s=" + sig == p1 + [','] + p2;
    ScanOfHeader(p1, p2);
    ScanOfTimestampAndSignature(ts, sig);
  }

  /**
   * Round trip: a header the processor builds, `t=<ts>,s=<HMAC(secret, ts.body)>`,
   * is accepted for that body under a configured secret.
   */
  lemma SignedHeaderAccepted(hmac: Hmac, secret: string, ts: string, body: string)
    requires !Empty(secret) && !Empty(ts) && ',' !in ts
    requires !Empty(hmac(secret, ts + "." + body)) && ',' !in hmac(secret, ts + "." + body)
    ensures Accepts(hmac, secret, Some("t=" + ts + ",s=" + hmac(secret, ts + "." + body)), body)
  {
    ScanTwoParts(ts, hmac(secret, ts + "." + body));
  }

  /**
   * `empty()` counts "0" as empty: a header whose timestamp is `0` is
   * rejected even when it carries the right signature.
   */
  lemma ZeroTimestampRejected(hmac: Hmac, secret: string, body: string)
    requires ',' !in hmac(secret, "0." + body)
    ensures !Accepts(hmac, secret, Some("t=0,s=" + hmac(secret, "0." + body)), body)
  {
    ScanTwoParts("0", hmac(secret, "0." + body));
    assert "t=" + "0" + ",s=" + hmac(secret, "0." + body) == "t=0,s=" + hmac(secret, "0." + body);
  }

  /** HMAC under a fixed key taken as collision-free. */
  ghost predicate CollisionFree(hmac: Hmac, secret: string) {
    forall m1, m2 :: hmac(secret, m1) == hmac(secret, m2) ==> m1 == m2
  }

  /** Changing the body: a header accepted for one body is rejected for any other. */
  lemma BodyTamperRejected(hmac: Hmac, secret: string, header: Option<string>, body: string, body': string)
    requires CollisionFree(hmac, secret)
    requires Accepts(hmac, secret, header, body) && body' != body
    ensures !Accepts(hmac, secret, header, body')
  {
    var f := Scan(Explode(',', header.value));
    var m, m' := f.timestamp + "." + body, f.timestamp + "." + body';
    assert m[|f.timestamp| + 1..] == body && m'[|f.timestamp| + 1..] == body';
    assert m != m';
    assert hmac(secret, m') != f.signature;
  }

  /** Changing the timestamp: two accepted headers with the same signature for one body carry the same `t`. */
  lemma TimestampTamperRejected(hmac: Hmac, secret: string, h1: string, h2: string, body: string)
    requires CollisionFree(hmac, secret)
    requires Accepts(hmac, secret, Some(h1), body) && Accepts(hmac, secret, Some(h2), body)
    requires Scan(Explode(',', h1)).signature == Scan(Explode(',', h2)).signature
    ensures Scan(Explode(',', h1)).timestamp == Scan(Explode(',', h2)).timestamp
  {
    var t1, t2 := Scan(Explode(',', h1)).timestamp, Scan(Explode(',', h2)).timestamp;
    var m1, m2 := t1 + "." + body, t2 + "." + body;
    assert m1 == m2;
    assert |t1| == |t2|;
    assert m1[..|t1|] == t1 && m2[..|t2|] == t2;
  }

  /** Changing the signature: for one timestamp and body only one signature is accepted. */
  lemma SignatureTamperRejected(hmac: Hmac, secret: string, h1: string, h2: string, body: string)
    requires Accepts(hmac, secret, Some(h1), body) && Accepts(hmac, secret, Some(h2), body)
    requires Scan(Explode(',', h1)).timestamp == Scan(Explode(',', h2)).timestamp
    ensures Scan(Explode(',', h1)).signature == Scan(Explode(',', h2)).signature
  {
  }
}
