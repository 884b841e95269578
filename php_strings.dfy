/**
 * The PHP string built-ins the gateway relies on, over `string`.
 * PHP strings are byte strings; each `char` here stands for one byte.
 */
module PhpStrings {
  import opened Wrappers

  /** PHP's `empty()` on a string value: "" and "0" are empty (so is `null`, modelled as ""). */
  predicate Empty(s: string) {
    s == "" || s == "0"
  }

  /** `implode(sep, parts)` for a one-character separator. */
  function Join(sep: char, parts: seq<string>): string
    decreases |parts|
  {
    if |parts| == 0 then ""
    else if |parts| == 1 then parts[0]
    else parts[0] + [sep] + Join(sep, parts[1..])
  }

  /**
   * `explode(sep, s)` for a one-character separator: at least one piece,
   * no piece holds the separator, and gluing the pieces back gives `s`.
   */
  function Explode(sep: char, s: string): (parts: seq<string>)
    ensures |parts| >= 1
    ensures forall i :: 0 <= i < |parts| ==> sep !in parts[i]
    ensures Join(sep, parts) == s
    decreases |s|
  {
    if s == "" then [""]
    else
      var rest := Explode(sep, s[1..]);
      if s[0] == sep then
        assert ([""] + rest)[1..] == rest;
        [""] + rest
      else
        var parts := [[s[0]] + rest[0]] + rest[1..];
        assert |rest| > 1 ==> parts[1..] == rest[1..] && Join(sep, rest) == rest[0] + [sep] + Join(sep, rest[1..]);
        assert s == [s[0]] + s[1..];
        parts
  }

  /** Splitting a separator-free piece: one piece, itself. */
  lemma {:induction false} ExplodeNoSeparator(sep: char, a: string)
    requires sep !in a
    ensures Explode(sep, a) == [a]
    decreases |a|
  {
    if a != "" {
      assert sep !in a[1..];
      ExplodeNoSeparator(sep, a[1..]);
    }
  }

  /** The first separator ends the first piece. */
  lemma {:induction false} ExplodeFirstPiece(sep: char, a: string, b: string)
    requires sep !in a
    ensures Explode(sep, a + [sep] + b) == [a] + Explode(sep, b)
    decreases |a|
  {
    if a == "" {
      assert (a + [sep] + b)[1..] == b;
    } else {
      assert (a + [sep] + b)[1..] == a[1..] + [sep] + b;
      assert sep !in a[1..];
      ExplodeFirstPiece(sep, a[1..], b);
      assert [a[0]] + a[1..] == a;
    }
  }

  /** `explode` undoes `implode` when no piece holds the separator. */
  lemma {:induction false} ExplodeJoin(sep: char, parts: seq<string>)
    requires |parts| >= 1
    requires forall i :: 0 <= i < |parts| ==> sep !in parts[i]
    ensures Explode(sep, Join(sep, parts)) == parts
    decreases |parts|
  {
    if |parts| == 1 {
      ExplodeNoSeparator(sep, parts[0]);
    } else {
      ExplodeJoin(sep, parts[1..]);
      ExplodeFirstPiece(sep, parts[0], Join(sep, parts[1..]));
      assert [parts[0]] + parts[1..] == parts;
    }
  }

  /** Two separator-free pieces joined by the separator split back into those two. */
  lemma ExplodeTwo(sep: char, a: string, b: string)
    requires sep !in a && sep !in b
    ensures Explode(sep, a + [sep] + b) == [a, b]
  {
    ExplodeFirstPiece(sep, a, b);
    ExplodeNoSeparator(sep, b);
  }

  /**
   * `explode(sep, s, 2)`: the text before the first separator and, when there
   * is a separator, everything after it (PHP leaves the second item `null`
   * when there is none).
   */
  function SplitFirst(sep: char, s: string): (r: (string, Option<string>))
    ensures sep !in r.0
    ensures r.1 == None ==> r.0 == s
    ensures r.1.Some? ==> s == r.0 + [sep] + r.1.value
    decreases |s|
  {
    if s == "" then ("", None)
    else if s[0] == sep then ("", Some(s[1..]))
    else
      var (k, v) := SplitFirst(sep, s[1..]);
      assert s == [s[0]] + s[1..];
      ([s[0]] + k, v)
  }

  /** Splitting `key=value` on its first separator gives back the key and the value. */
  lemma {:induction false} SplitFirstAtKey(sep: char, key: string, value: string)
    requires sep !in key
    ensures SplitFirst(sep, key + [sep] + value) == (key, Some(value))
    decreases |key|
  {
    var s := key + [sep] + value;
    if key == "" {
      assert s[1..] == value;
    } else {
      assert s[1..] == key[1..] + [sep] + value;
      assert sep !in key[1..];
      SplitFirstAtKey(sep, key[1..], value);
      assert [key[0]] + key[1..] == key;
    }
  }

  /** `parse_str` on a query string: `&`-separated `key=value` pairs, a later key overwriting an earlier one. */
  function ParseQuery(s: string): map<string, string> {
    QueryPairs(Explode('&', s))
  }

  /** The array `parse_str` has built after the given pairs; a pair with an empty key is skipped. */
  function QueryPairs(pairs: seq<string>): map<string, string>
    decreases |pairs|
  {
    if pairs == [] then map[]
    else
      var (key, value) := SplitFirst('=', pairs[|pairs| - 1]);
      var m := QueryPairs(pairs[..|pairs| - 1]);
      if key == "" then m else m[key := value.GetOr("")]
  }

  /** Two pairs joined by `&` parse back to the two keys and values. */
  lemma ParseTwoPairs(k1: string, v1: string, k2: string, v2: string)
    requires k1 != "" && k2 != "" && k1 != k2
    requires '&' !in k1 && '&' !in v1 && '&' !in k2 && '&' !in v2
    requires '=' !in k1 && '=' !in k2
    ensures ParseQuery(k1 + "=" + v1 + "&" + k2 + "=" + v2) == map[k1 := v1, k2 := v2]
  {
    var p1, p2 := k1 + "=" + v1, k2 + "=" + v2;
    assert Join('&', [p1, p2]) == k1 + "=" + v1 + "&" + k2 + "=" + v2;
    ExplodeJoin('&', [p1, p2]);
    SplitFirstAtKey('=', k1, v1);
    SplitFirstAtKey('=', k2, v2);
    assert [p1, p2][..1] == [p1];
    assert [p1][..0] == [];
    assert QueryPairs([p1]) == map[k1 := v1];
    assert QueryPairs([p1, p2]) == map[k1 := v1][k2 := v2];
  }

  function LowerChar(c: char): char {
    if 'A' <= c <= 'Z' then (c as int + 32) as char else c
  }

  function UpperChar(c: char): char {
    if 'a' <= c <= 'z' then (c as int - 32) as char else c
  }

  /** `strtolower`: ASCII letters only, as PHP 8 does. */
  function Lower(s: string): string {
    seq(|s|, i requires 0 <= i < |s| => LowerChar(s[i]))
  }

  /** `ucfirst` */
  function UcFirst(s: string): string {
    if s == "" then s else [UpperChar(s[0])] + s[1..]
  }

  /** `strpos(hay, needle) !== false` */
  predicate Contains(needle: string, hay: string)
    decreases |hay|
  {
    needle <= hay || (hay != "" && Contains(needle, hay[1..]))
  }

  /** A string is found wherever it is put. */
  lemma {:induction false} ContainsInMiddle(before: string, needle: string, after: string)
    ensures Contains(needle, before + needle + after)
    decreases |before|
  {
    var hay := before + needle + after;
    if before == "" {
      assert hay == needle + after;
    } else {
      assert hay[1..] == before[1..] + needle + after;
      ContainsInMiddle(before[1..], needle, after);
    }
  }

  /** `substr(s, -n)`: the last `n` characters, or all of `s` when it is shorter. */
  function Tail(s: string, n: nat): (r: string)
    ensures |r| == if |s| < n then |s| else n
    ensures r == s[|s| - |r|..]
  {
    if |s| <= n then s else s[|s| - n..]
  }

  predicate IsDigit(c: char) {
    '0' <= c <= '9'
  }

  predicate IsSpace(c: char) {
    c == ' ' || c == '\t' || c == '\n' || c == '\r' || c == '\U{000B}' || c == '\U{000C}'
  }

  function DigitChar(d: nat): char
    requires d < 10
  {
    ('0' as int + d) as char
  }

  /** The decimal digits PHP prints for a non-negative integer. */
  function Decimal(n: nat): (r: string)
    ensures |r| >= 1
    ensures forall i :: 0 <= i < |r| ==> IsDigit(r[i])
    decreases n
  {
    if n < 10 then [DigitChar(n)] else Decimal(n / 10) + [DigitChar(n % 10)]
  }

  /** PHP's string form of an integer. */
  function IntString(i: int): string {
    if i < 0 then "-" + Decimal(-i) else Decimal(i)
  }

  /** The value of a string of decimal digits. */
  function DigitsValue(d: string): nat
    requires forall i :: 0 <= i < |d| ==> IsDigit(d[i])
    decreases |d|
  {
    if d == "" then 0
    else
      assert IsDigit(d[|d| - 1]);
      DigitsValue(d[..|d| - 1]) * 10 + (d[|d| - 1] as int - '0' as int)
  }

  /** The longest run of digits that starts `s`. */
  function LeadingDigits(s: string): (r: string)
    ensures r <= s
    ensures forall i :: 0 <= i < |r| ==> IsDigit(r[i])
    ensures |r| < |s| ==> !IsDigit(s[|r|])
    decreases |s|
  {
    if s != "" && IsDigit(s[0]) then [s[0]] + LeadingDigits(s[1..]) else ""
  }

  function TrimLeft(s: string): string
    decreases |s|
  {
    if s != "" && IsSpace(s[0]) then TrimLeft(s[1..]) else s
  }

  /** `intval` on a string: leading blanks, an optional sign, then the leading digits (0 when there are none). */
  function IntVal(s: string): int {
    var t := TrimLeft(s);
    if t != "" && t[0] == '-' then -(DigitsValue(LeadingDigits(t[1..])) as int)
    else if t != "" && t[0] == '+' then DigitsValue(LeadingDigits(t[1..]))
    else DigitsValue(LeadingDigits(t))
  }

  lemma {:induction false} LeadingDigitsOfDigits(d: string)
    requires forall i :: 0 <= i < |d| ==> IsDigit(d[i])
    ensures LeadingDigits(d) == d
    decreases |d|
  {
    if d != "" {
      LeadingDigitsOfDigits(d[1..]);
      assert [d[0]] + d[1..] == d;
    }
  }

  lemma {:induction false} DigitsValueDecimal(n: nat)
    ensures DigitsValue(Decimal(n)) == n
    decreases n
  {
    var d := Decimal(n);
    if n >= 10 {
      DigitsValueDecimal(n / 10);
      assert d[..|d| - 1] == Decimal(n / 10);
    }
  }

  /** `intval` reads back every integer PHP prints. */
  lemma IntValRoundTrip(i: int)
    ensures IntVal(IntString(i)) == i
  {
    var d := Decimal(if i < 0 then -i else i);
    LeadingDigitsOfDigits(d);
    DigitsValueDecimal(if i < 0 then -i else i);
    if i < 0 {
      assert TrimLeft("-" + d) == "-" + d;
      assert ("-" + d)[1..] == d;
    } else {
      assert TrimLeft(d) == d;
    }
  }

  /** Distinct non-negative integers print differently. */
  lemma DecimalInjective(a: nat, b: nat)
    requires Decimal(a) == Decimal(b)
    ensures a == b
  {
    DigitsValueDecimal(a);
    DigitsValueDecimal(b);
  }
}
