/**
 * The parts of a JSON Web Token (RFC 7519) that the pages look at: the
 * payload segment of the compact serialization, the base64url alphabet
 * (section 5 of RFC 4648) mapped back to plain base64, the JSON values a
 * claim may hold, JavaScript truthiness of those values, and
 * `parseInt(value, 10)` on them.
 */
module Jwt {
  import opened Wrappers
  import opened Seqs
  import opened Text

  /**
   * A JSON value as JSON.parse returns it. Numbers are integers here;
   * `JObject` stands for objects (whose string form is "[object Object]").
   */
  datatype JsonValue = JNull | JBool(b: bool) | JNum(n: int) | JStr(s: string) | JObject

  /** The identity claims of a decoded payload; `None` is an absent property (`undefined`). */
  datatype Claims = Claims(UserId: Option<JsonValue>, userId: Option<JsonValue>, sub: Option<JsonValue>)

  /** JavaScript truthiness of a property value. */
  predicate Truthy(v: Option<JsonValue>)
  {
    match v
    case None => false
    case Some(JNull) => false
    case Some(JBool(b)) => b
    case Some(JNum(n)) => n != 0
    case Some(JStr(s)) => s != []
    case Some(JObject) => true
  }

  /** `a || b`: the left operand when it is truthy, else the right one. */
  function Or(a: Option<JsonValue>, b: Option<JsonValue>): (r: Option<JsonValue>)
    ensures Truthy(r) <==> Truthy(a) || Truthy(b)
  {
    if Truthy(a) then a else b
  }

  /** The numeric value of a sequence of decimal digits, most significant first. */
  function DigitsValue(ds: string): (v: nat)
    requires forall i :: 0 <= i < |ds| ==> IsDigit(ds[i])
  {
    if ds == [] then 0
    else
      var last := ds[|ds| - 1];
      assert IsDigit(last);
      DigitsValue(ds[..|ds| - 1]) * 10 + (last as int - '0' as int)
  }

  /** The longest prefix of `s` made of decimal digits. */
  function LeadingDigits(s: string): (r: string)
    ensures |r| <= |s| && r == s[..|r|]
    ensures forall i :: 0 <= i < |r| ==> IsDigit(r[i])
    ensures |r| < |s| ==> !IsDigit(s[|r|])
  {
    if s == [] || !IsDigit(s[0]) then []
    else [s[0]] + LeadingDigits(s[1..])
  }

  /**
   * `parseInt(s, 10)`: leading whitespace skipped, an optional sign, then the
   * longest run of digits; `None` (NaN) when there is no digit.
   */
  function ParseInt(s: string): Option<int>
  {
    var t := TrimStart(s);
    var negative := t != [] && t[0] == '-';
    var u := if t != [] && (t[0] == '-' || t[0] == '+') then t[1..] else t;
    var ds := LeadingDigits(u);
    if ds == [] then None
    else
      var v: int := DigitsValue(ds);
      Some(if negative then -v else v)
  }

  /** `parseInt(v, 10)` on a property value, after JavaScript's conversion of `v` to a string. */
  function ParseIntValue(v: Option<JsonValue>): Option<int>
  {
    match v
    case Some(JNum(n)) => Some(n)
    case Some(JStr(s)) => ParseInt(s)
    case _ => None  // "undefined", "null", "true", "false", "[object Object]" hold no digit
  }

  /** The decimal digit for 0 <= d < 10. */
  function Digit(d: nat): (c: char)
    requires d < 10
    ensures IsDigit(c) && c as int - '0' as int == d
  {
    ('0' as int + d) as char
  }

  /** The decimal numeral of a natural number, as the server writes an id claim. */
  function Numeral(k: nat): (r: string)
    ensures r != [] && forall i :: 0 <= i < |r| ==> IsDigit(r[i])
  {
    if k < 10 then [Digit(k)] else Numeral(k / 10) + [Digit(k % 10)]
  }

  /** `String(n)` for an integer. */
  function Decimal(n: int): string
  {
    if n < 0 then "-" + Numeral(-n) else Numeral(n)
  }

  /** Reading a numeral back gives the number. */
  lemma {:induction false} NumeralValue(k: nat)
    ensures DigitsValue(Numeral(k)) == k
  {
    if k >= 10 {
      var ds := Numeral(k);
      assert ds[..|ds| - 1] == Numeral(k / 10);
      NumeralValue(k / 10);
    }
  }

  /** A string of digits is its own longest digit prefix. */
  lemma {:induction false} LeadingDigitsAll(s: string)
    requires forall i :: 0 <= i < |s| ==> IsDigit(s[i])
    ensures LeadingDigits(s) == s
  {
    if s != [] {
      LeadingDigitsAll(s[1..]);
    }
  }

  /** A string that starts with a digit or a sign has no leading whitespace to skip. */
  lemma NoLeadingSpace(s: string)
    requires s != [] && (IsDigit(s[0]) || s[0] == '-')
    ensures TrimStart(s) == s
  {
  }

  /** A digit string, unsigned or after a minus sign, with nothing to skip, parses to its value. */
  lemma ParseSigned(s: string, ds: string, negative: bool)
    requires ds != [] && forall i :: 0 <= i < |ds| ==> IsDigit(ds[i])
    requires s == if negative then "-" + ds else ds
    requires TrimStart(s) == s
    ensures ParseInt(s) == Some(if negative then -(DigitsValue(ds) as int) else DigitsValue(ds))
  {
    if negative {
      assert s[1..] == ds;
    }
    LeadingDigitsAll(ds);
  }

  /** `parseInt(String(n), 10) == n`: the claim parser inverts the decimal form of an id. */
  lemma ParseDecimal(n: int)
    ensures ParseInt(Decimal(n)) == Some(n)
  {
    var k: nat := if n < 0 then -n else n;
    var ds := Numeral(k);
    var s := Decimal(n);
    NumeralValue(k);
    NoLeadingSpace(s);
    ParseSigned(s, ds, n < 0);
  }

  /**
   * `token.split(".")[1]`: the second dot-separated segment, the payload of a
   * compact JWT; `None` (undefined) when the token has no dot.
   */
  function PayloadSegment(token: string): (r: Option<string>)
    ensures r.Some? <==> '.' in token
    ensures r.Some? ==> '.' !in r.value
  {
    match FindIndex(token, c => c == '.')
    case None => None
    case Some(i) =>
      var rest := token[i + 1..];
      match FindIndex(rest, c => c == '.')
      case None => Some(rest)
      case Some(j) => Some(rest[..j])
  }

  /** The payload segment of `header.payload.signature` is `payload`. */
  lemma PayloadOfCompact(header: string, payload: string, signature: string)
    requires '.' !in header && '.' !in payload
    ensures PayloadSegment(header + "." + payload + "." + signature) == Some(payload)
  {
    var t := header + "." + payload + "." + signature;
    assert t[|header|] == '.';
    assert forall j :: 0 <= j < |header| ==> t[j] == header[j];
    var rest := t[|header| + 1..];
    assert rest == payload + "." + signature;
    assert rest[|payload|] == '.';
    assert forall j :: 0 <= j < |payload| ==> rest[j] == payload[j];
    assert rest[..|payload|] == payload;
  }

  /** `.replace(/-/g, "+").replace(/_/g, "/")`: the base64url alphabet mapped back to base64. */
  function Base64UrlToBase64(s: string): (r: string)
    ensures |r| == |s|
    ensures '-' !in r && '_' !in r
    ensures forall i :: 0 <= i < |s| ==>
              r[i] == (if s[i] == '-' then '+' else if s[i] == '_' then '/' else s[i])
  {
    seq(|s|, i requires 0 <= i < |s| => if s[i] == '-' then '+' else if s[i] == '_' then '/' else s[i])
  }
}
