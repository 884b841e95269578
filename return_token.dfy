/**
 * The return-URL token (`return_url` and the token check at the start of
 * `maybe_process_tailoredpay_page`): `ids=<form>|<entry>&hash=<wp_hash(ids=<form>|<entry>)>`,
 * base64-encoded (RFC 4648 section 4) into the `gf_tailoredpay_return` query argument.
 */
module ReturnToken {
  import opened Wrappers
  import opened PhpStrings

  /** `wp_hash`, a keyed hash taken as an uninterpreted function. */
  type Hasher = string -> string

  /** `base64_encode` or `base64_decode`, taken as uninterpreted functions. */
  type Coder = string -> string

  /** What is assumed of base64: decoding undoes encoding, and a non-empty text never encodes to a PHP-falsy string. */
  ghost predicate RoundTrips(encode: Coder, decode: Coder) {
    forall s :: decode(encode(s)) == s && (s != "" ==> !Empty(encode(s)))
  }

  /** The query the token protects. */
  function IdsQuery(formId: string, entryId: string): string {
    "ids=" + formId + "|" + entryId
  }

  /** The token `return_url` puts into the URL. */
  function IssueToken(encode: Coder, hash: Hasher, formId: string, entryId: string): string {
    var ids := IdsQuery(formId, entryId);
    encode(ids + "&hash=" + hash(ids))
  }

  /** The ids a verified token yields: `list($form_id, $entry_id) = explode('|', ids)`; the entry id is `null` when there is no `|`. */
  datatype ReturnIds = ReturnIds(formId: string, entryId: Option<string>)

  /**
   * The token check: a truthy query argument, decoded and parsed, must hold
   * both `ids` and `hash`, and `hash` must equal `wp_hash('ids=' . ids)`.
   */
  function VerifyToken(decode: Coder, hash: Hasher, param: Option<string>): Option<ReturnIds> {
    if param.None? || Empty(param.value) then None
    else
      var query := ParseQuery(decode(param.value));
      if "ids" !in query || "hash" !in query then None
      else if hash("ids=" + query["ids"]) != query["hash"] then None
      else
        var parts := Explode('|', query["ids"]);
        Some(ReturnIds(parts[0], if |parts| >= 2 then Some(parts[1]) else None))
  }

  /** Printed numbers hold no separator. */
  lemma DecimalHasNo(n: nat, c: char)
    requires !IsDigit(c)
    ensures c !in Decimal(n)
  {
    var d := Decimal(n);
    forall i | 0 <= i < |d|
      ensures d[i] != c
    {
      assert IsDigit(d[i]);
    }
  }

  /** An id that survives the token's query syntax: no `&` and no `|`. */
  predicate PlainId(s: string) {
    '&' !in s && '|' !in s
  }

  lemma DecimalIsPlain(n: nat)
    ensures PlainId(Decimal(n))
  {
    DecimalHasNo(n, '&');
    DecimalHasNo(n, '|');
  }

  /** The `ids` value of plain ids holds no `&` and splits back on `|` into the two ids. */
  lemma PlainIds(formId: string, entryId: string)
    requires PlainId(formId) && PlainId(entryId)
    ensures '&' !in formId + "|" + entryId
    ensures Explode('|', formId + "|" + entryId) == [formId, entryId]
  {
    assert Join('|', [formId, entryId]) == formId + "|" + entryId;
    ExplodeJoin('|', [formId, entryId]);
  }

  /** Plain ids determine their query: different ids, different `ids=` text. */
  lemma IdsQueryInjective(formId: string, entryId: string, formId': string, entryId': string)
    requires PlainId(formId) && PlainId(entryId) && PlainId(formId') && PlainId(entryId')
    requires IdsQuery(formId, entryId) == IdsQuery(formId', entryId')
    ensures formId == formId' && entryId == entryId'
  {
    var q, q' := IdsQuery(formId, entryId), IdsQuery(formId', entryId');
    assert q[4..] == formId + "|" + entryId;
    assert q'[4..] == formId' + "|" + entryId';
    PlainIds(formId, entryId);
    PlainIds(formId', entryId');
  }

  /** The decoded text `ids=<form>|<entry>&hash=<tag>` for plain ids parses to exactly its `ids` and `hash`. */
  lemma ParseTokenText(formId: string, entryId: string, tag: string)
    requires PlainId(formId) && PlainId(entryId) && '&' !in tag
    ensures ParseQuery(IdsQuery(formId, entryId) + "&hash=" + tag)
      == map["ids" := formId + "|" + entryId, "hash" := tag]
  {
    var ids := formId + "|" + entryId;
    PlainIds(formId, entryId);
    assert IdsQuery(formId, entryId) + "&hash=" + tag == "ids" + "=" + ids + "&" + "hash" + "=" + tag;
    ParseTwoPairs("ids", ids, "hash", tag);
  }

  /** Round trip: a token issued for a form and an entry verifies and yields that form and that entry. */
  lemma TokenRoundTrip(encode: Coder, decode: Coder, hash: Hasher, formId: nat, entryId: nat)
    requires RoundTrips(encode, decode)
    requires '&' !in hash(IdsQuery(Decimal(formId), Decimal(entryId)))
    ensures VerifyToken(decode, hash, Some(IssueToken(encode, hash, Decimal(formId), Decimal(entryId))))
            == Some(ReturnIds(Decimal(formId), Some(Decimal(entryId))))
  {
    DecimalIsPlain(formId);
    DecimalIsPlain(entryId);
    PlainTokenRoundTrip(encode, decode, hash, Decimal(formId), Decimal(entryId));
  }

  /** The round trip for any ids without `&` or `|`. */
  lemma PlainTokenRoundTrip(encode: Coder, decode: Coder, hash: Hasher, f: string, e: string)
    requires RoundTrips(encode, decode)
    requires PlainId(f) && PlainId(e)
    requires '&' !in hash(IdsQuery(f, e))
    ensures VerifyToken(decode, hash, Some(IssueToken(encode, hash, f, e))) == Some(ReturnIds(f, Some(e)))
  {
    var tag := hash(IdsQuery(f, e));
    var text := IdsQuery(f, e) + "&hash=" + tag;
    var token := IssueToken(encode, hash, f, e);
    assert token == encode(text);
    assert decode(token) == text && !Empty(token);
    var query := ParseQuery(text);
    ParseTokenText(f, e, tag);
    assert query == map["ids" := f + "|" + e, "hash" := tag];
    assert "ids=" + query["ids"] == IdsQuery(f, e);
    PlainIds(f, e);
  }

  /** `wp_hash` taken as collision-free. */
  ghost predicate CollisionFree(hash: Hasher) {
    forall a, b :: hash(a) == hash(b) ==> a == b
  }

  /**
   * Tamper evidence: moving the tag of one form and entry onto the ids of a
   * different form or entry yields a token that is rejected.
   */
  lemma SplicedTagRejected(encode: Coder, decode: Coder, hash: Hasher, formId: nat, entryId: nat, formId': nat, entryId': nat)
    requires RoundTrips(encode, decode) && CollisionFree(hash)
    requires '&' !in hash(IdsQuery(Decimal(formId), Decimal(entryId)))
    requires (formId', entryId') != (formId, entryId)
    ensures var forged := IdsQuery(Decimal(formId'), Decimal(entryId')) + "&hash=" + hash(IdsQuery(Decimal(formId), Decimal(entryId)));
      VerifyToken(decode, hash, Some(encode(forged))) == None
  {
    DecimalIsPlain(formId);
    DecimalIsPlain(entryId);
    DecimalIsPlain(formId');
    DecimalIsPlain(entryId');
    if Decimal(formId) == Decimal(formId') {
      DecimalInjective(formId, formId');
    }
    if Decimal(entryId) == Decimal(entryId') {
      DecimalInjective(entryId, entryId');
    }
    PlainSplicedTagRejected(encode, decode, hash, Decimal(formId), Decimal(entryId), Decimal(formId'), Decimal(entryId'));
  }

  /** Tamper evidence for any ids without `&` or `|`. */
  lemma PlainSplicedTagRejected(encode: Coder, decode: Coder, hash: Hasher, f: string, e: string, f': string, e': string)
    requires RoundTrips(encode, decode) && CollisionFree(hash)
    requires PlainId(f) && PlainId(e) && PlainId(f') && PlainId(e')
    requires '&' !in hash(IdsQuery(f, e))
    requires (f', e') != (f, e)
    ensures VerifyToken(decode, hash, Some(encode(IdsQuery(f', e') + "&hash=" + hash(IdsQuery(f, e))))) == None
  {
    var tag := hash(IdsQuery(f, e));
    var forged := IdsQuery(f', e') + "&hash=" + tag;
    assert decode(encode(forged)) == forged && !Empty(encode(forged));
    ParseTokenText(f', e', tag);
    assert "ids=" + (f' + "|" + e') == IdsQuery(f', e');
    if IdsQuery(f', e') == IdsQuery(f, e) {
      IdsQueryInjective(f, e, f', e');
    }
    assert hash(IdsQuery(f', e')) != tag;
  }

  /** Acceptance is exactly the tag check: a token whose decoded `ids` and `hash` are present verifies iff `hash == wp_hash('ids=' . ids)`. */
  lemma AcceptsIffTagMatches(decode: Coder, hash: Hasher, param: string)
    requires !Empty(param)
    requires var q := ParseQuery(decode(param)); "ids" in q && "hash" in q
    ensures var q := ParseQuery(decode(param));
      VerifyToken(decode, hash, Some(param)).Some? <==> q["hash"] == hash("ids=" + q["ids"])
  {
  }
}
