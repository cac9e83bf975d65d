/**
 * The pieces of the JavaScript runtime that the system's logic relies on:
 * JSON values as produced by `JSON.parse`/`express.json`, truthiness, `for...in`
 * key enumeration, and the string operations the code calls (`includes`,
 * `startsWith`, `indexOf`, `trim`, `split(' ')[1]`, decimal formatting of
 * numbers, and the tag-stripping `replace(/<[^>]*>/g, '')`).
 */
module Js {

  datatype Option<+T> = None | Some(value: T)

  /** A JSON value. Numbers are integers; an object keeps its fields in insertion order. */
  datatype Json =
    | JNull
    | JBool(b: bool)
    | JNum(n: int)
    | JStr(s: string)
    | JArr(items: seq<Json>)
    | JObj(fields: seq<Field>)

  datatype Field = Field(key: string, value: Json)

  /** JavaScript truthiness of a value that may be `undefined` (None). */
  predicate Truthy(v: Option<Json>)
  {
    match v
    case None => false
    case Some(JNull) => false
    case Some(JBool(b)) => b
    case Some(JNum(n)) => n != 0
    case Some(JStr(s)) => s != ""
    case Some(JArr(_)) => true
    case Some(JObj(_)) => true
  }

  function KeysOf(fields: seq<Field>): (ks: seq<string>)
    ensures |ks| == |fields|
    ensures forall i :: 0 <= i < |fields| ==> ks[i] == fields[i].key
  {
    if fields == [] then [] else [fields[0].key] + KeysOf(fields[1..])
  }

  /** `obj[key]` on an object: the value stored under `key`, or `undefined`. */
  function Lookup(fields: seq<Field>, key: string): (r: Option<Json>)
    ensures r.Some? <==> key in KeysOf(fields)
    ensures r.Some? ==> exists i :: 0 <= i < |fields| && fields[i] == Field(key, r.value)
  {
    if fields == [] then None
    else if fields[0].key == key then Some(fields[0].value)
    else Lookup(fields[1..], key)
  }

  /** Property read `v.key` on a non-null value: objects look the key up, every other value yields `undefined`. */
  function Member(v: Json, key: string): Option<Json>
  {
    if v.JObj? then Lookup(v.fields, key) else None
  }

  predicate IsArray(v: Option<Json>)
  {
    v.Some? && v.value.JArr?
  }

  /**
   * The (key, value) pairs visited by `for (const key in v)` followed by `v[key]`:
   * an object's own fields, the indices of an array or a string, nothing otherwise.
   */
  function ForInEntries(v: Json): (r: seq<Field>)
    ensures v.JObj? ==> r == v.fields
    ensures v.JArr? ==> |r| == |v.items|
    ensures v.JStr? ==> |r| == |v.s|
    ensures !v.JObj? && !v.JArr? && !v.JStr? ==> r == []
  {
    match v
    case JObj(fields) => fields
    case JArr(items) => seq(|items|, i requires 0 <= i < |items| => Field(NatToString(i), items[i]))
    case JStr(s) => seq(|s|, i requires 0 <= i < |s| => Field(NatToString(i), JStr([s[i]])))
    case _ => []
  }

  // ---------------------------------------------------------------------------
  // Strings
  // ---------------------------------------------------------------------------

  /** The code points matched by `\s` in a JavaScript regular expression and removed by `trim`. */
  predicate IsWhitespace(c: char)
  {
    var n := c as int;
    n == 0x09 || n == 0x0A || n == 0x0B || n == 0x0C || n == 0x0D || n == 0x20
    || n == 0xA0 || n == 0x1680 || (0x2000 <= n <= 0x200A)
    || n == 0x2028 || n == 0x2029 || n == 0x202F || n == 0x205F || n == 0x3000 || n == 0xFEFF
  }

  /** `[a-zA-Z0-9_]` */
  predicate IsWordChar(c: char)
  {
    ('a' <= c <= 'z') || ('A' <= c <= 'Z') || ('0' <= c <= '9') || c == '_'
  }

  /** `pat` occurs in `s` starting at index `k`. */
  predicate StartsAt(s: string, k: nat, pat: string)
  {
    k + |pat| <= |s| && s[k..k + |pat|] == pat
  }

  predicate StartsWith(s: string, prefix: string)
  {
    StartsAt(s, 0, prefix)
  }

  /** `s.indexOf(c, from)` for a single character, None for -1. */
  function IndexOfChar(s: string, c: char, from: nat): (r: Option<nat>)
    requires from <= |s|
    ensures r.Some? ==> from <= r.value < |s| && s[r.value] == c
    ensures r.Some? ==> forall k :: from <= k < r.value ==> s[k] != c
    ensures r.None? ==> forall k :: from <= k < |s| ==> s[k] != c
    decreases |s| - from
  {
    if from == |s| then None
    else if s[from] == c then Some(from)
    else IndexOfChar(s, c, from + 1)
  }

  /** `s.indexOf(pat, from)`, None for -1. */
  function IndexOfStr(s: string, pat: string, from: nat): (r: Option<nat>)
    requires from <= |s|
    ensures r.Some? ==> from <= r.value && StartsAt(s, r.value, pat)
    ensures r.Some? ==> forall k :: from <= k < r.value ==> !StartsAt(s, k, pat)
    ensures r.None? ==> forall k :: from <= k <= |s| ==> !StartsAt(s, k, pat)
    decreases |s| - from
  {
    if StartsAt(s, from, pat) then Some(from)
    else if from == |s| then None
    else IndexOfStr(s, pat, from + 1)
  }

  /** `s.includes(sub)` */
  predicate Includes(s: string, sub: string)
  {
    IndexOfStr(s, sub, 0).Some?
  }

  lemma IncludesIff(s: string, sub: string)
    ensures Includes(s, sub) <==> exists k :: 0 <= k <= |s| && StartsAt(s, k, sub)
  {
    var r := IndexOfStr(s, sub, 0);
    if r.Some? {
      assert StartsAt(s, r.value, sub);
    }
  }

  /** Index of the first code point at or after `i` that is not whitespace. */
  function SkipWhitespace(s: string, i: nat): (j: nat)
    requires i <= |s|
    ensures i <= j <= |s|
    ensures forall k :: i <= k < j ==> IsWhitespace(s[k])
    ensures j < |s| ==> !IsWhitespace(s[j])
    decreases |s| - i
  {
    if i < |s| && IsWhitespace(s[i]) then SkipWhitespace(s, i + 1) else i
  }

  /** `s.trimStart()` */
  function TrimStart(s: string): (r: string)
    ensures |r| <= |s| && r == s[|s| - |r|..]
    ensures forall k :: 0 <= k < |s| - |r| ==> IsWhitespace(s[k])
    ensures r == [] || !IsWhitespace(r[0])
  {
    if s != [] && IsWhitespace(s[0]) then TrimStart(s[1..]) else s
  }

  /** `s.trimEnd()` */
  function TrimEnd(s: string): (r: string)
    ensures |r| <= |s| && r == s[..|r|]
    ensures forall k :: |r| <= k < |s| ==> IsWhitespace(s[k])
    ensures r == [] || !IsWhitespace(r[|r| - 1])
  {
    if s != [] && IsWhitespace(s[|s| - 1]) then TrimEnd(s[..|s| - 1]) else s
  }

  /** `s.trim()` */
  function Trim(s: string): string
  {
    TrimEnd(TrimStart(s))
  }

  /** A string trims to the empty string exactly when all of it is whitespace. */
  lemma TrimEmptyIff(s: string)
    ensures Trim(s) == "" <==> forall k :: 0 <= k < |s| ==> IsWhitespace(s[k])
  {
    var t := TrimStart(s);
    if Trim(s) == "" {
      assert t == [];
    } else {
      assert t != [];
      assert !IsWhitespace(t[0]);
      assert s[|s| - |t|] == t[0];
    }
  }

  /** A character outside the Basic Multilingual Plane, which UTF-16 writes as a surrogate pair. */
  predicate Astral(c: char)
  {
    c as int >= 0x1_0000
  }

  /**
   * `s.length` of a JavaScript string: the number of UTF-16 code units, two for each astral
   * character and one for every other.
   */
  function Utf16Length(s: string): (n: nat)
    ensures |s| <= n <= 2 * |s|
    ensures n == |s| <==> forall k :: 0 <= k < |s| ==> !Astral(s[k])
  {
    if s == [] then 0
    else
      var rest := Utf16Length(s[1..]);
      assert forall k :: 1 <= k < |s| ==> s[k] == s[1..][k - 1];
      (if Astral(s[0]) then 2 else 1) + rest
  }

  /**
   * `s.replace(/<[^>]*>/g, '')`: every `<` that has a `>` somewhere after it is removed together
   * with everything up to and including the first such `>`; other characters are kept.
   */
  function StripTags(s: string): (r: string)
    ensures |r| <= |s|
    decreases |s|
  {
    if s == [] then []
    else if s[0] == '<' && IndexOfChar(s, '>', 1).Some? then
      var j := IndexOfChar(s, '>', 1).value;
      StripTags(s[j + 1..])
    else [s[0]] + StripTags(s[1..])
  }

  /** No `<...>` tag is left for the pattern to match. */
  predicate TagFree(s: string)
  {
    forall i, j :: 0 <= i < j < |s| && s[i] == '<' ==> s[j] != '>'
  }

  lemma {:induction false} StripTagsTagFree(s: string)
    ensures TagFree(StripTags(s))
    decreases |s|
  {
    if s == [] {
    } else if s[0] == '<' && IndexOfChar(s, '>', 1).Some? {
      var j := IndexOfChar(s, '>', 1).value;
      StripTagsTagFree(s[j + 1..]);
    } else {
      var rest := StripTags(s[1..]);
      StripTagsTagFree(s[1..]);
      var r := [s[0]] + rest;
      assert r[1..] == rest;
      if s[0] == '<' {
        // no '>' anywhere after the '<', and the rest only drops characters
        StripTagsKeepsNoChar(s[1..], '>');
      }
      forall i, j | 0 <= i < j < |r| && r[i] == '<' ensures r[j] != '>' {
        if i > 0 {
          assert rest[i - 1] == '<' && r[j] == rest[j - 1];
        } else {
          assert r[j] == rest[j - 1];
        }
      }
    }
  }

  /** Stripping tags never introduces a character that was absent. */
  lemma {:induction false} StripTagsKeepsNoChar(s: string, c: char)
    requires forall k :: 0 <= k < |s| ==> s[k] != c
    ensures forall k :: 0 <= k < |StripTags(s)| ==> StripTags(s)[k] != c
    decreases |s|
  {
    if s == [] {
    } else if s[0] == '<' && IndexOfChar(s, '>', 1).Some? {
      var j := IndexOfChar(s, '>', 1).value;
      StripTagsKeepsNoChar(s[j + 1..], c);
    } else {
      StripTagsKeepsNoChar(s[1..], c);
      var r := [s[0]] + StripTags(s[1..]);
      assert forall k :: 1 <= k < |r| ==> r[k] == StripTags(s[1..])[k - 1];
    }
  }

  /** A tag-free string is left as it is: stripping tags is idempotent. */
  lemma {:induction false} StripTagsOfTagFree(s: string)
    requires TagFree(s)
    ensures StripTags(s) == s
    decreases |s|
  {
    if s != [] {
      if s[0] == '<' {
        assert forall k :: 1 <= k < |s| ==> s[k] != '>';
        assert IndexOfChar(s, '>', 1).None?;
      }
      assert TagFree(s[1..]) by {
        forall i, j | 0 <= i < j < |s[1..]| && s[1..][i] == '<' ensures s[1..][j] != '>' {
          assert s[i + 1] == '<';
        }
      }
      StripTagsOfTagFree(s[1..]);
    }
  }

  lemma StripTagsIdempotent(s: string)
    ensures StripTags(StripTags(s)) == StripTags(s)
  {
    StripTagsTagFree(s);
    StripTagsOfTagFree(StripTags(s));
  }

  /** The token after the first space, up to the next space: `s.split(' ')[1]`, None for `undefined`. */
  function SecondField(s: string): (r: Option<string>)
    ensures r.None? <==> forall k :: 0 <= k < |s| ==> s[k] != ' '
    ensures r.Some? ==> forall k :: 0 <= k < |r.value| ==> r.value[k] != ' '
    ensures r.Some? ==>
      exists i :: 0 <= i < |s| && s[i] == ' ' && (forall k :: 0 <= k < i ==> s[k] != ' ')
        && i + 1 + |r.value| <= |s| && r.value == s[i + 1..i + 1 + |r.value|]
        && (i + 1 + |r.value| == |s| || s[i + 1 + |r.value|] == ' ')
  {
    match IndexOfChar(s, ' ', 0)
    case None => None
    case Some(i) =>
      var rest := s[i + 1..];
      match IndexOfChar(rest, ' ', 0)
      case None =>
        assert rest == s[i + 1..i + 1 + |rest|];
        Some(rest)
      case Some(j) =>
        assert s[i + 1 + j] == rest[j];
        assert rest[..j] == s[i + 1..i + 1 + j];
        Some(rest[..j])
  }

  // ---------------------------------------------------------------------------
  // Decimal formatting of non-negative numbers (template literals, array indices)
  // ---------------------------------------------------------------------------

  function DigitChar(d: nat): (c: char)
    requires d < 10
    ensures '0' <= c <= '9'
  {
    ('0' as int + d) as char
  }

  function NatToString(n: nat): (r: string)
    ensures |r| >= 1
    ensures forall k :: 0 <= k < |r| ==> '0' <= r[k] <= '9'
    decreases n
  {
    if n < 10 then [DigitChar(n)] else NatToString(n / 10) + [DigitChar(n % 10)]
  }

  lemma DigitCharInjective(a: nat, b: nat)
    requires a < 10 && b < 10 && DigitChar(a) == DigitChar(b)
    ensures a == b
  {
  }

  /** Distinct numbers are written differently. */
  lemma {:induction false} NatToStringInjective(a: nat, b: nat)
    requires NatToString(a) == NatToString(b)
    ensures a == b
    decreases a
  {
    var sa, sb := NatToString(a), NatToString(b);
    if a < 10 && b < 10 {
      DigitCharInjective(a, b);
    } else if a >= 10 && b >= 10 {
      assert sa[|sa| - 1] == DigitChar(a % 10) && sb[|sb| - 1] == DigitChar(b % 10);
      DigitCharInjective(a % 10, b % 10);
      assert NatToString(a / 10) == sa[..|sa| - 1] == sb[..|sb| - 1] == NatToString(b / 10);
      NatToStringInjective(a / 10, b / 10);
    }
  }

  /** The value of a decimal digit. */
  function DigitValue(c: char): (d: nat)
    requires '0' <= c <= '9'
    ensures d < 10 && DigitChar(d) == c
  {
    c as int - '0' as int
  }

  /** The value of a non-empty string of decimal digits; None for any other string. */
  function DigitsValue(s: string): (r: Option<nat>)
    ensures r.Some? <==> s != [] && forall k :: 0 <= k < |s| ==> '0' <= s[k] <= '9'
  {
    if s == [] || !('0' <= s[|s| - 1] <= '9') then None
    else if |s| == 1 then Some(DigitValue(s[0]))
    else match DigitsValue(s[..|s| - 1])
      case None => None
      case Some(v) => Some(10 * v + DigitValue(s[|s| - 1]))
  }

  /**
   * `Number(s)` for a string, restricted to integers: surrounding whitespace is ignored, the empty
   * string is 0, and an optionally signed decimal numeral is its value. None stands for NaN.
   */
  function StringToNumber(s: string): (r: Option<int>)
    ensures Trim(s) == "" ==> r == Some(0)
    ensures r.Some? && Trim(s) != "" ==> Trim(s)[0] == '+' || Trim(s)[0] == '-' || '0' <= Trim(s)[0] <= '9'
  {
    var t := Trim(s);
    if t == "" then Some(0)
    else
      var negative := t[0] == '-';
      var body := if t[0] == '+' || negative then t[1..] else t;
      match DigitsValue(body)
      case None => None
      case Some(v) =>
        var x: int := v;
        Some(if negative then -x else x)
  }

  /**
   * `Number(v)` as `<` applies it to a JSON value: null is 0, a boolean 0 or 1, a string by
   * `StringToNumber`, an array through its `join(',')` string (empty: 0; one element: that element's
   * string; more: NaN), an object through '[object Object]', which is NaN. None stands for NaN.
   */
  function ToNumber(v: Json): (r: Option<int>)
    ensures v.JNull? ==> r == Some(0)
    ensures v.JBool? ==> r == Some(if v.b then 1 else 0)
    ensures v.JNum? ==> r == Some(v.n)
    ensures v.JObj? ==> r.None?
    ensures v.JArr? && |v.items| > 1 ==> r.None?
    ensures v.JArr? && |v.items| == 1 && v.items[0].JBool? ==> r.None?
    decreases v
  {
    match v
    case JNull => Some(0)
    case JBool(b) => Some(if b then 1 else 0)
    case JNum(k) => Some(k)
    case JStr(s) => StringToNumber(s)
    case JArr(items) =>
      if |items| == 0 then Some(0)
      // String(true) is 'true', which is NaN; null joins as ''; the other kinds read as on their own
      else if |items| == 1 then (if items[0].JBool? then None else ToNumber(items[0]))
      else None
    case JObj(_) => None
  }

  lemma DigitNotWhitespace(c: char)
    requires '0' <= c <= '9'
    ensures !IsWhitespace(c)
  {
  }

  /** A digit string has no whitespace at either end, so trimming it changes nothing. */
  lemma TrimDigits(s: string)
    requires forall k :: 0 <= k < |s| ==> '0' <= s[k] <= '9'
    ensures Trim(s) == s
  {
    if s != [] {
      DigitNotWhitespace(s[0]);
      DigitNotWhitespace(s[|s| - 1]);
      assert TrimStart(s) == s;
      assert TrimEnd(s) == s;
    }
  }

  /** `Number` reads a decimal numeral back as the number it spells: `Number('42')` is 42. */
  lemma StringToNumberOfNat(n: nat)
    ensures StringToNumber(NatToString(n)) == Some(n)
  {
    TrimDigits(NatToString(n));
    DigitsValueOfNatToString(n);
  }

  /** Reading back a number written in decimal gives the number. */
  lemma {:induction false} DigitsValueOfNatToString(n: nat)
    ensures DigitsValue(NatToString(n)) == Some(n)
    decreases n
  {
    var s := NatToString(n);
    if n >= 10 {
      DigitsValueOfNatToString(n / 10);
      assert s[..|s| - 1] == NatToString(n / 10);
      assert DigitValue(s[|s| - 1]) == n % 10;
    } else {
      assert DigitValue(s[0]) == n;
    }
  }
}
