/**
 * `capitalizeFirstLetter` (frontend/src/utils/helpers.js): underscores become spaces and every
 * space-separated word gets its first character upper-cased.
 */
module Helpers {
  import opened Js

  /**
   * `String.prototype.toUpperCase` on one character: ASCII and Latin-1 lower-case letters map to
   * their capitals, 'ß' to "SS", 'µ' to 'Μ' and 'ÿ' to 'Ÿ'; every other character is unchanged.
   */
  function UpperCase(c: char): (u: string)
    ensures u != []
    ensures c != ' ' ==> ' ' !in u
    ensures c != '_' ==> '_' !in u
    ensures c < 128 as char ==> |u| == 1 && u[0] < 128 as char
  {
    if 'a' <= c <= 'z' || ('à' <= c <= 'þ' && c != '÷') then [(c as int - 32) as char]
    else if c == 'ß' then "SS"
    else if c == 'µ' then "Μ"
    else if c == 'ÿ' then "Ÿ"
    else [c]
  }

  /** A capital produced by UpperCase is left as it is by a second upper-casing. */
  lemma UpperCaseFixed(c: char)
    ensures UpperCase(UpperCase(c)[0]) == [UpperCase(c)[0]]
  {
  }

  /** `str.replace(/_/g, ' ')` */
  function ReplaceUnderscores(s: string): (r: string)
    ensures |r| == |s|
    ensures forall i :: 0 <= i < |s| ==> r[i] == (if s[i] == '_' then ' ' else s[i])
  {
    if s == [] then [] else [if s[0] == '_' then ' ' else s[0]] + ReplaceUnderscores(s[1..])
  }

  /** `s.split(' ')`: the pieces between spaces, empty ones included; never an empty list. */
  function Split(s: string): (ws: seq<string>)
    ensures |ws| >= 1
  {
    if s == [] then [""]
    else if s[0] == ' ' then [""] + Split(s[1..])
    else var rest := Split(s[1..]); [[s[0]] + rest[0]] + rest[1..]
  }

  /** `ws.join(' ')` */
  function Join(ws: seq<string>): string
  {
    if ws == [] then ""
    else if |ws| == 1 then ws[0]
    else ws[0] + " " + Join(ws[1..])
  }

  /** `word.charAt(0).toUpperCase() + word.slice(1)` */
  function CapitalizeWord(w: string): string
  {
    if w == "" then "" else UpperCase(w[0]) + w[1..]
  }

  function CapitalizeWords(ws: seq<string>): (r: seq<string>)
    ensures |r| == |ws|
    ensures forall i :: 0 <= i < |ws| ==> r[i] == CapitalizeWord(ws[i])
  {
    if ws == [] then [] else [CapitalizeWord(ws[0])] + CapitalizeWords(ws[1..])
  }

  /**
   * The same result stated character by character: spaces are kept, and a character is
   * upper-cased exactly when it starts a word (at the beginning or right after a space).
   */
  function CapitalizeFrom(s: string, atWordStart: bool): (r: string)
    ensures '_' !in s ==> '_' !in r
    decreases |s|
  {
    if s == [] then ""
    else if s[0] == ' ' then " " + CapitalizeFrom(s[1..], true)
    else (if atWordStart then UpperCase(s[0]) else [s[0]]) + CapitalizeFrom(s[1..], false)
  }

  lemma JoinHead(a: string, b: string, ws: seq<string>)
    ensures Join([a + b] + ws) == a + Join([b] + ws)
  {
    if ws != [] {
      assert ([a + b] + ws)[1..] == ws == ([b] + ws)[1..];
    }
  }

  /** Splitting, capitalizing each word and joining agrees with the character-wise definition. */
  lemma {:induction false} SplitCapitalizeJoin(t: string)
    ensures Join(CapitalizeWords(Split(t))) == CapitalizeFrom(t, true)
    ensures Join([Split(t)[0]] + CapitalizeWords(Split(t)[1..])) == CapitalizeFrom(t, false)
    decreases |t|
  {
    if t == [] {
    } else if t[0] == ' ' {
      var rest := Split(t[1..]);
      SplitCapitalizeJoin(t[1..]);
      assert Split(t) == [""] + rest;
      assert CapitalizeWords(Split(t)) == [""] + CapitalizeWords(rest);
      assert Split(t)[1..] == rest;
      assert Join([""] + CapitalizeWords(rest)) == "" + " " + Join(CapitalizeWords(rest));
    } else {
      var c := t[0];
      var rest := Split(t[1..]);
      SplitCapitalizeJoin(t[1..]);
      assert Split(t) == [[c] + rest[0]] + rest[1..];
      assert CapitalizeWord([c] + rest[0]) == UpperCase(c) + rest[0];
      assert CapitalizeWords(Split(t)) == [UpperCase(c) + rest[0]] + CapitalizeWords(rest[1..]);
      JoinHead(UpperCase(c), rest[0], CapitalizeWords(rest[1..]));
      assert Split(t)[1..] == rest[1..];
      JoinHead([c], rest[0], CapitalizeWords(rest[1..]));
    }
  }

  /**
   * capitalizeFirstLetter: '' for a falsy argument (null, undefined or ''); otherwise the
   * replace/split/map/join chain, which equals the character-wise definition.
   */
  function CapitalizeFirstLetter(str: Option<string>): (r: string)
    ensures str.None? || str == Some("") ==> r == ""
    ensures str.Some? ==> r == CapitalizeFrom(ReplaceUnderscores(str.value), true)
  {
    if str.None? || str.value == "" then ""
    else
      SplitCapitalizeJoin(ReplaceUnderscores(str.value));
      Join(CapitalizeWords(Split(ReplaceUnderscores(str.value))))
  }

  /** The result never holds an underscore. */
  lemma NoUnderscores(str: Option<string>)
    ensures '_' !in CapitalizeFirstLetter(str)
  {
    if str.Some? {
      var s := ReplaceUnderscores(str.value);
    }
  }

  predicate Ascii(s: string)
  {
    forall i :: 0 <= i < |s| ==> s[i] < 128 as char
  }

  /** Whether position `i` starts a word: the first position when the scan starts a word, or one right after a space. */
  predicate StartsWord(s: string, atWordStart: bool, i: nat)
    requires i < |s|
  {
    if i == 0 then atWordStart else s[i - 1] == ' '
  }

  /** Position `i` of `r` is position `i` of `s` as capitalized: a space stays a space, a word start is upper-cased, anything else is kept. */
  predicate CapitalizedAt(s: string, atWordStart: bool, r: string, i: nat)
    requires i < |s| && |r| == |s|
  {
    && (r[i] == ' ' <==> s[i] == ' ')
    && (s[i] != ' ' && StartsWord(s, atWordStart, i) ==> [r[i]] == UpperCase(s[i]))
    && (s[i] != ' ' && !StartsWord(s, atWordStart, i) ==> r[i] == s[i])
  }

  /** For ASCII text: same length, spaces exactly where they were, and only word starts changed. */
  lemma {:induction false} CapitalizeFromAscii(s: string, atWordStart: bool)
    requires Ascii(s)
    ensures |CapitalizeFrom(s, atWordStart)| == |s|
    ensures forall i :: 0 <= i < |s| ==> CapitalizedAt(s, atWordStart, CapitalizeFrom(s, atWordStart), i)
    decreases |s|
  {
    if s != [] {
      var tail := s[1..];
      var x := CapitalizeFrom(tail, s[0] == ' ');
      CapitalizeFromAscii(tail, s[0] == ' ');
      var head := if s[0] == ' ' then " " else if atWordStart then UpperCase(s[0]) else [s[0]];
      var r := CapitalizeFrom(s, atWordStart);
      assert r == head + x;
      assert |head| == 1;
      forall i | 0 <= i < |s|
        ensures CapitalizedAt(s, atWordStart, r, i)
      {
        if i > 0 {
          assert r[i] == x[i - 1] && s[i] == tail[i - 1];
          assert StartsWord(s, atWordStart, i) == StartsWord(tail, s[0] == ' ', i - 1);
          assert CapitalizedAt(tail, s[0] == ' ', x, i - 1);
        }
      }
    }
  }

  /** For ASCII text, each '_' becomes ' ', so the length and the separator positions are kept. */
  lemma AsciiShapeKept(s: string)
    requires Ascii(s)
    ensures |CapitalizeFirstLetter(Some(s))| == |s|
    ensures forall i :: 0 <= i < |s| ==> (CapitalizeFirstLetter(Some(s))[i] == ' ' <==> s[i] == ' ' || s[i] == '_')
  {
    var t := ReplaceUnderscores(s);
    CapitalizeFromAscii(t, true);
    forall i | 0 <= i < |s|
      ensures CapitalizeFirstLetter(Some(s))[i] == ' ' <==> s[i] == ' ' || s[i] == '_'
    {
      assert CapitalizedAt(t, true, CapitalizeFrom(t, true), i);
    }
  }

  /** Upper-casing the start of a word that already starts with a capital changes nothing. */
  lemma {:induction false} CapitalizeFromIdempotent(s: string, atWordStart: bool)
    ensures CapitalizeFrom(CapitalizeFrom(s, atWordStart), atWordStart) == CapitalizeFrom(s, atWordStart)
    decreases |s|
  {
    if s != [] {
      var x := CapitalizeFrom(s[1..], s[0] == ' ');
      CapitalizeFromIdempotent(s[1..], s[0] == ' ');
      if s[0] == ' ' {
        assert (" " + x)[1..] == x;
      } else if atWordStart {
        UpperCaseFixed(s[0]);
        WordStartKept(UpperCase(s[0]), x);
      } else {
        assert ([s[0]] + x)[1..] == x;
      }
    }
  }

  /** A word start that is already a capital, followed by the rest of its word, is kept as it is. */
  lemma WordStartKept(u: string, x: string)
    requires u != [] && ' ' !in u && UpperCase(u[0]) == [u[0]]
    ensures CapitalizeFrom(u + x, true) == u + CapitalizeFrom(x, false)
  {
    var v := u + x;
    assert v[0] == u[0] && v[1..] == u[1..] + x;
    assert ' ' != u[0] by {
      assert u[0] in u;
    }
    calc {
      CapitalizeFrom(v, true);
      UpperCase(v[0]) + CapitalizeFrom(v[1..], false);
      [u[0]] + CapitalizeFrom(u[1..] + x, false);
      { KeepsWordTail(u[1..], x); }
      [u[0]] + (u[1..] + CapitalizeFrom(x, false));
      { assert u == [u[0]] + u[1..]; }
      u + CapitalizeFrom(x, false);
    }
  }

  /** Inside a word nothing is upper-cased until the next space. */
  lemma {:induction false} KeepsWordTail(v: string, x: string)
    requires ' ' !in v
    ensures CapitalizeFrom(v + x, false) == v + CapitalizeFrom(x, false)
    decreases |v|
  {
    if v == [] {
      assert v + x == x;
    } else {
      assert (v + x)[0] == v[0];
      assert (v + x)[1..] == v[1..] + x;
      KeepsWordTail(v[1..], x);
      assert v == [v[0]] + v[1..];
    }
  }

  /** Applying capitalizeFirstLetter twice gives the same as applying it once. */
  lemma CapitalizeTwice(str: Option<string>)
    ensures CapitalizeFirstLetter(Some(CapitalizeFirstLetter(str))) == CapitalizeFirstLetter(str)
  {
    var once := CapitalizeFirstLetter(str);
    NoUnderscores(str);
    assert ReplaceUnderscores(once) == once;
    if str.Some? {
      CapitalizeFromIdempotent(ReplaceUnderscores(str.value), true);
    }
  }
}
