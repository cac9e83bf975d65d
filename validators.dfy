/**
 * The express-validator checks the routes use, on JSON request values: the errors each check
 * reports (collected, not thrown, and read back with `validationResult(req).array()`), and exactly
 * which values pass.
 */
module Validators {
  import opened Js

  const DefaultMessage := "Invalid value"

  /** The error object reported for a field: `{ type, value, msg, path, location }`; `value` is dropped when undefined. */
  function ValidatorError(location: string, field: string, value: Option<Json>, msg: string): Json
  {
    JObj([Field("type", JStr("field"))]
         + (if value.Some? then [Field("value", value.value)] else [])
         + [Field("msg", JStr(msg)), Field("path", JStr(field)), Field("location", JStr(location))])
  }

  /**
   * Whether a value's string form, as a standard validator converts it, is `''`: `null`, `''`, or an
   * array whose `join(',')` is empty, that is `[]` or one element whose string form is empty
   * (`[null]`, `['']`, `[[]]`). Numbers, booleans, objects and longer arrays have a non-empty form.
   */
  predicate EmptyString(v: Json)
  {
    match v
    case JNull => true
    case JStr(s) => s == ""
    case JArr(items) => items == [] || (|items| == 1 && EmptyString(items[0]))
    case _ => false
  }

  /** Whether the string form a standard validator sees is empty; `undefined` included. */
  predicate EmptyForm(v: Option<Json>)
  {
    v.None? || EmptyString(v.value)
  }

  /** Arrays that join to `''` count as empty, and so do nested ones. */
  lemma EmptyArrayForms()
    ensures EmptyForm(Some(JArr([JNull])))
    ensures EmptyForm(Some(JArr([JStr("")])))
    ensures EmptyForm(Some(JArr([JArr([JNull])])))
    ensures !EmptyForm(Some(JArr([JNull, JNull])))
    ensures !EmptyForm(Some(JArr([JNum(0)])))
  {
  }

  /** A value `notEmpty()` accepts; on an array the check applies to each element. */
  predicate NotEmptyValue(v: Option<Json>)
  {
    if v.Some? && v.value.JArr? then forall k :: 0 <= k < |v.value.items| ==> !EmptyForm(Some(v.value.items[k]))
    else !EmptyForm(v)
  }

  function ElementErrors(location: string, field: string, items: seq<Json>, msg: string): (errs: seq<Json>)
    ensures errs == [] <==> forall k :: 0 <= k < |items| ==> !EmptyForm(Some(items[k]))
  {
    if items == [] then []
    else (if EmptyForm(Some(items[0])) then [ValidatorError(location, field, Some(items[0]), msg)] else [])
         + ElementErrors(location, field, items[1..], msg)
  }

  /** `notEmpty()`: one error per empty element of an array, else one error for an empty value. */
  function NotEmptyErrors(location: string, field: string, v: Option<Json>, msg: string): (errs: seq<Json>)
    ensures errs == [] <==> NotEmptyValue(v)
  {
    if v.Some? && v.value.JArr? then ElementErrors(location, field, v.value.items, msg)
    else if EmptyForm(v) then [ValidatorError(location, field, v, msg)] else []
  }

  /** `isObject()` in its default strict form: an object, not an array and not `null`. */
  function IsObjectErrors(location: string, field: string, v: Option<Json>, msg: string): (errs: seq<Json>)
    ensures errs == [] <==> v.Some? && v.value.JObj?
  {
    if v.Some? && v.value.JObj? then [] else [ValidatorError(location, field, v, msg)]
  }

  function IsStringErrors(location: string, field: string, v: Option<Json>, msg: string): (errs: seq<Json>)
    ensures errs == [] <==> v.Some? && v.value.JStr?
  {
    if v.Some? && v.value.JStr? then [] else [ValidatorError(location, field, v, msg)]
  }

  /** The length `isLength()` measures: characters, not counting the variation selectors U+FE0E and U+FE0F. */
  function VisibleLength(s: string): (n: nat)
    ensures n <= |s|
    ensures (forall k :: 0 <= k < |s| ==> s[k] != '\U{FE0E}' && s[k] != '\U{FE0F}') ==> n == |s|
  {
    if s == [] then 0
    else (if s[0] == '\U{FE0E}' || s[0] == '\U{FE0F}' then 0 else 1) + VisibleLength(s[1..])
  }

  function IsLengthErrors(location: string, field: string, s: string, min: nat, max: nat, msg: string): (errs: seq<Json>)
    ensures errs == [] <==> min <= VisibleLength(s) <= max
  {
    if min <= VisibleLength(s) <= max then [] else [ValidatorError(location, field, Some(JStr(s)), msg)]
  }

  predicate Digits(s: string)
  {
    forall k :: 0 <= k < |s| ==> '0' <= s[k] <= '9'
  }

  /** `isInt()` with no options: an optional sign, then one or more digits, leading zeros allowed. */
  predicate IsIntLiteral(s: string)
  {
    var body := if s != [] && (s[0] == '+' || s[0] == '-') then s[1..] else s;
    body != [] && Digits(body)
  }

  /** The value of an `isInt()` literal, as the database reads it when comparing with an integer column. */
  function IntValue(s: string): int
    requires IsIntLiteral(s)
  {
    if s[0] == '-' then -(DigitsValue(s[1..]).value as int)
    else if s[0] == '+' then DigitsValue(s[1..]).value
    else DigitsValue(s).value
  }

  /** A numeral `isInt()` accepts denotes the number it spells. */
  lemma IntLiteralOfNat(n: nat)
    ensures IsIntLiteral(NatToString(n)) && IntValue(NatToString(n)) == n
  {
    DigitsValueOfNatToString(n);
  }

  /** `k` zeros. */
  function Zeros(k: nat): (z: string)
    ensures |z| == k
    ensures forall i :: 0 <= i < k ==> z[i] == '0'
  {
    if k == 0 then [] else "0" + Zeros(k - 1)
  }

  /** A leading zero does not change the value of a digit string. */
  lemma {:induction false} LeadingZeroValue(d: string)
    requires d != [] && Digits(d)
    ensures DigitsValue("0" + d) == DigitsValue(d)
    decreases |d|
  {
    if |d| > 1 {
      LeadingZeroValue(d[..|d| - 1]);
      assert ("0" + d)[..|d|] == "0" + d[..|d| - 1];
    }
  }

  /** Zeros in front of a digit string do not change its value. */
  lemma {:induction false} ZerosValue(k: nat, d: string)
    requires d != [] && Digits(d)
    ensures Digits(Zeros(k) + d)
    ensures DigitsValue(Zeros(k) + d) == DigitsValue(d)
    decreases k
  {
    var s := Zeros(k) + d;
    assert forall i :: 0 <= i < |s| ==> s[i] == (if i < k then '0' else d[i - k]);
    if k > 0 {
      ZerosValue(k - 1, d);
      var t := Zeros(k - 1) + d;
      assert s == "0" + t;
      LeadingZeroValue(t);
    } else {
      assert s == d;
    }
  }

  /** `isInt()` accepts a numeral padded with zeros, and it denotes the same number: `007` is 7. */
  lemma LeadingZerosAccepted(k: nat, n: nat)
    ensures IsIntLiteral(Zeros(k) + NatToString(n))
    ensures IntValue(Zeros(k) + NatToString(n)) == n
  {
    var d := NatToString(n);
    var s := Zeros(k) + d;
    ZerosValue(k, d);
    DigitsValueOfNatToString(n);
    assert '0' <= s[0] <= '9';
  }

  predicate HexDigit(c: char)
  {
    '0' <= c <= '9' || 'a' <= c <= 'f' || 'A' <= c <= 'F'
  }

  /** `isUUID(4)`: 8-4-4-4-12 hex digits, case-insensitive, version 4 and variant 8, 9, a or b. */
  predicate IsUuidV4(s: string)
  {
    && |s| == 36
    && (forall k :: 0 <= k < 36 ==> (k == 8 || k == 13 || k == 18 || k == 23 <==> s[k] == '-'))
    && (forall k :: 0 <= k < 36 && k != 8 && k != 13 && k != 18 && k != 23 ==> HexDigit(s[k]))
    && s[14] == '4'
    && s[19] in {'8', '9', 'a', 'b', 'A', 'B'}
  }
}
