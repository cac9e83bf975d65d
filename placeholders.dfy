/**
 * The text-placeholder pattern `/{{\s*([a-zA-Z0-9_]+)\s*}}/g` and the loop that lists the distinct
 * placeholder keys of a template in order of first occurrence
 * (backend/controllers/templateController.js, getTemplateById, and its copy in backend/server.js).
 * The same scanner serves the section parser and the "must contain a placeholder" validators.
 */
module Placeholders {
  import opened Js

  /** One match: `{{` at `start`, the key at `keyStart..keyEnd`, the match ends before `end`. */
  datatype PlaceholderMatch = PlaceholderMatch(start: nat, keyStart: nat, keyEnd: nat, end: nat)

  /** The shape the pattern accepts: `{{`, whitespace, a non-empty word, whitespace, `}}`. */
  ghost predicate IsPlaceholder(s: string, m: PlaceholderMatch)
  {
    && m.start + 2 <= m.keyStart < m.keyEnd <= m.end - 2
    && m.end <= |s|
    && StartsAt(s, m.start, "{{")
    && StartsAt(s, m.end - 2, "}}")
    && (forall k :: m.start + 2 <= k < m.keyStart ==> IsWhitespace(s[k]))
    && (forall k :: m.keyStart <= k < m.keyEnd ==> IsWordChar(s[k]))
    && (forall k :: m.keyEnd <= k < m.end - 2 ==> IsWhitespace(s[k]))
  }

  function Key(s: string, m: PlaceholderMatch): string
    requires m.keyStart <= m.keyEnd <= |s|
  {
    s[m.keyStart..m.keyEnd]
  }

  /** Index of the first code point at or after `i` outside `[a-zA-Z0-9_]`. */
  function SkipWord(s: string, i: nat): (j: nat)
    requires i <= |s|
    ensures i <= j <= |s|
    ensures forall k :: i <= k < j ==> IsWordChar(s[k])
    ensures j < |s| ==> !IsWordChar(s[j])
    decreases |s| - i
  {
    if i < |s| && IsWordChar(s[i]) then SkipWord(s, i + 1) else i
  }

  /**
   * The pattern tried at position `p`. Both `\s*` and the word class are greedy and no backtracking
   * into them can succeed, so a match exists exactly when the maximal runs line up.
   */
  function PlaceholderAt(s: string, p: nat): (r: Option<PlaceholderMatch>)
    requires p <= |s|
    ensures r.Some? ==> r.value.start == p && IsPlaceholder(s, r.value)
  {
    if !StartsAt(s, p, "{{") then None
    else
      var a := SkipWhitespace(s, p + 2);
      var b := SkipWord(s, a);
      if a == b then None
      else
        var c := SkipWhitespace(s, b);
        if StartsAt(s, c, "}}") then Some(PlaceholderMatch(p, a, b, c + 2)) else None
  }

  /** Conversely, every occurrence of the shape at `p` is what the pattern matches there. */
  lemma PlaceholderAtComplete(s: string, m: PlaceholderMatch)
    requires IsPlaceholder(s, m)
    ensures PlaceholderAt(s, m.start) == Some(m)
  {
    var a := SkipWhitespace(s, m.start + 2);
    assert !IsWhitespace(s[m.keyStart]);
    assert a == m.keyStart;
    var b := SkipWord(s, a);
    assert s[m.end - 2] == s[m.end - 2..m.end][0];
    assert !IsWordChar(s[m.keyEnd]);
    assert b == m.keyEnd;
    var c := SkipWhitespace(s, b);
    assert !IsWhitespace(s[m.end - 2]);
    assert c == m.end - 2;
  }

  /** Two matches never overlap: inside a match no second `{{` begins. */
  lemma NoPlaceholderInside(s: string, m: PlaceholderMatch, p: nat)
    requires IsPlaceholder(s, m)
    requires m.start < p < m.end
    ensures PlaceholderAt(s, p).None?
  {
    assert s[m.end - 2..m.end] == "}}";
    assert s[m.end - 2] == '}' && s[m.end - 1] == '}';
    assert s[m.start + 1] == s[m.start..m.start + 2][1] == '{';
    assert !StartsAt(s, p, "{{") by {
      if p + 2 <= |s| {
        assert s[p..p + 2][0] == s[p] && s[p..p + 2][1] == s[p + 1];
        assert s[p] != '{' || s[p + 1] != '{';
      }
    }
  }

  /** `regex.exec(s)` with `lastIndex == from`: the leftmost match at or after `from`. */
  function NextPlaceholder(s: string, from: nat): (r: Option<PlaceholderMatch>)
    requires from <= |s|
    ensures r.Some? ==> from <= r.value.start <= |s| && PlaceholderAt(s, r.value.start) == r
    ensures r.Some? ==> forall p :: from <= p < r.value.start ==> PlaceholderAt(s, p).None?
    ensures r.None? ==> forall p :: from <= p <= |s| ==> PlaceholderAt(s, p).None?
    decreases |s| - from
  {
    var here := PlaceholderAt(s, from);
    if here.Some? then here
    else if from == |s| then None
    else NextPlaceholder(s, from + 1)
  }

  /** The captured keys, in the order the global `exec` loop visits them from `from` on. */
  function PlaceholderKeys(s: string, from: nat): seq<string>
    requires from <= |s|
    decreases |s| - from
  {
    match NextPlaceholder(s, from)
    case None => []
    case Some(m) => [Key(s, m)] + PlaceholderKeys(s, m.end)
  }

  lemma PlaceholderKeysStep(s: string, from: nat)
    requires from <= |s| && NextPlaceholder(s, from).Some?
    ensures PlaceholderKeys(s, from) == [Key(s, NextPlaceholder(s, from).value)] + PlaceholderKeys(s, NextPlaceholder(s, from).value.end)
  {
  }

  /** `regex.test(s)` on a fresh global regex. */
  predicate HasPlaceholder(s: string)
  {
    NextPlaceholder(s, 0).Some?
  }

  /** Every well-formed `{{ key }}` at or after `from` is visited by the loop. */
  lemma {:induction false} PlaceholderKeysComplete(s: string, from: nat, m: PlaceholderMatch)
    requires from <= m.start && IsPlaceholder(s, m)
    ensures Key(s, m) in PlaceholderKeys(s, from)
    decreases |s| - from
  {
    PlaceholderAtComplete(s, m);
    var n := NextPlaceholder(s, from).value;
    if n.start < m.start {
      if m.start < n.end {
        NoPlaceholderInside(s, n, m.start);
      } else {
        PlaceholderKeysComplete(s, n.end, m);
      }
    }
  }

  /** Every visited key is the key of a well-formed placeholder. */
  lemma {:induction false} PlaceholderKeysSound(s: string, from: nat, k: string)
    requires from <= |s|
    requires k in PlaceholderKeys(s, from)
    ensures exists m :: IsPlaceholder(s, m) && from <= m.start && Key(s, m) == k
    decreases |s| - from
  {
    var n := NextPlaceholder(s, from).value;
    if k != Key(s, n) {
      PlaceholderKeysSound(s, n.end, k);
    }
  }

  lemma HasPlaceholderIff(s: string)
    ensures HasPlaceholder(s) <==> exists m :: IsPlaceholder(s, m)
  {
    if HasPlaceholder(s) {
      assert IsPlaceholder(s, NextPlaceholder(s, 0).value);
    } else {
      forall m | IsPlaceholder(s, m) ensures false {
        PlaceholderAtComplete(s, m);
      }
    }
  }

  // ---------------------------------------------------------------------------
  // Distinct keys in first-occurrence order
  // ---------------------------------------------------------------------------

  predicate NoDuplicates<T(==)>(xs: seq<T>)
  {
    forall i, j :: 0 <= i < j < |xs| ==> xs[i] != xs[j]
  }

  /** Index of the first occurrence of `x` in `xs`, `|xs|` when there is none. */
  function FirstIndex<T(==)>(xs: seq<T>, x: T): (i: nat)
    ensures i <= |xs|
    ensures i < |xs| <==> x in xs
    ensures i < |xs| ==> xs[i] == x
    ensures forall k :: 0 <= k < i ==> xs[k] != x
  {
    if xs == [] then 0 else if xs[0] == x then 0 else 1 + FirstIndex(xs[1..], x)
  }

  /** `xs` with every repetition dropped, processed left to right as `if (!acc.includes(x)) acc.push(x)`. */
  function Unique<T(==)>(xs: seq<T>): seq<T>
  {
    if xs == [] then []
    else
      var r := Unique(xs[..|xs| - 1]);
      if xs[|xs| - 1] in r then r else r + [xs[|xs| - 1]]
  }

  lemma UniqueAppend<T>(xs: seq<T>, x: T)
    ensures Unique(xs + [x]) == if x in Unique(xs) then Unique(xs) else Unique(xs) + [x]
  {
    assert (xs + [x])[..|xs|] == xs;
  }

  lemma {:induction false} UniqueMembers<T>(xs: seq<T>)
    ensures forall x :: x in Unique(xs) <==> x in xs
  {
    if xs != [] {
      var init := xs[..|xs| - 1];
      UniqueMembers(init);
      assert xs == init + [xs[|xs| - 1]];
    }
  }

  lemma UniqueMember<T>(xs: seq<T>, x: T)
    requires x in Unique(xs)
    ensures x in xs
  {
    UniqueMembers(xs);
  }

  lemma {:induction false} UniqueNoDuplicates<T>(xs: seq<T>)
    ensures NoDuplicates(Unique(xs))
  {
    if xs != [] {
      UniqueNoDuplicates(xs[..|xs| - 1]);
    }
  }

  lemma FirstIndexAppend<T>(ys: seq<T>, y: T, x: T)
    ensures x in ys ==> FirstIndex(ys + [y], x) == FirstIndex(ys, x)
    ensures x !in ys && x == y ==> FirstIndex(ys + [y], x) == |ys|
  {
    var zs := ys + [y];
    if x in ys {
      var i, j := FirstIndex(zs, x), FirstIndex(ys, x);
      assert zs[j] == x;
      if i < j {
        assert ys[i] == zs[i];
      }
    } else if x == y {
      assert zs[|ys|] == x;
      forall k | 0 <= k < |ys| ensures zs[k] != x {
        assert zs[k] == ys[k];
      }
    }
  }

  /** The kept keys appear in the order of their first occurrence in `xs`. */
  lemma {:induction false} UniqueFirstOccurrenceOrder<T>(xs: seq<T>)
    ensures forall i, j :: 0 <= i < j < |Unique(xs)| ==>
      FirstIndex(xs, Unique(xs)[i]) < FirstIndex(xs, Unique(xs)[j])
  {
    if xs != [] {
      var init, last := xs[..|xs| - 1], xs[|xs| - 1];
      assert xs == init + [last];
      var r := Unique(init);
      UniqueFirstOccurrenceOrder(init);
      UniqueMembers(init);
      forall x | x in r ensures FirstIndex(xs, x) == FirstIndex(init, x) && FirstIndex(init, x) < |init| {
        UniqueMember(init, x);
        FirstIndexAppend(init, last, x);
      }
      if last !in r {
        FirstIndexAppend(init, last, last);
        var u := r + [last];
        forall i, j | 0 <= i < j < |u| ensures FirstIndex(xs, u[i]) < FirstIndex(xs, u[j]) {
          assert u[i] == r[i];
          if j < |r| {
            assert u[j] == r[j];
          }
        }
      }
    }
  }

  /** One turn of the loop below keeps its invariant. */
  lemma CollectStep(html: string, lastIndex: nat, seen: seq<string>)
    requires lastIndex <= |html| && NextPlaceholder(html, lastIndex).Some?
    requires seen + PlaceholderKeys(html, lastIndex) == PlaceholderKeys(html, 0)
    ensures var m := NextPlaceholder(html, lastIndex).value;
      && (seen + [Key(html, m)]) + PlaceholderKeys(html, m.end) == PlaceholderKeys(html, 0)
      && Unique(seen + [Key(html, m)]) == if Key(html, m) in Unique(seen) then Unique(seen) else Unique(seen) + [Key(html, m)]
  {
    var m := NextPlaceholder(html, lastIndex).value;
    PlaceholderKeysStep(html, lastIndex);
    assert seen + PlaceholderKeys(html, lastIndex) == (seen + [Key(html, m)]) + PlaceholderKeys(html, m.end);
    UniqueAppend(seen, Key(html, m));
  }

  /**
   * The placeholder loop of getTemplateById: every match of the global pattern is pushed unless
   * already present. The result is duplicate-free, holds exactly the matched keys, and lists them
   * in the order in which each key first occurs in the html.
   */
  method CollectPlaceholders(html: string) returns (placeholders: seq<string>)
    ensures placeholders == Unique(PlaceholderKeys(html, 0))
    ensures NoDuplicates(placeholders)
    ensures forall k :: k in placeholders <==> k in PlaceholderKeys(html, 0)
    ensures forall i, j :: 0 <= i < j < |placeholders| ==>
      FirstIndex(PlaceholderKeys(html, 0), placeholders[i]) < FirstIndex(PlaceholderKeys(html, 0), placeholders[j])
  {
    placeholders := [];
    ghost var seen: seq<string> := [];
    var lastIndex := 0;
    var m := NextPlaceholder(html, lastIndex);
    while m.Some?
      invariant lastIndex <= |html|
      invariant m == NextPlaceholder(html, lastIndex)
      invariant seen + PlaceholderKeys(html, lastIndex) == PlaceholderKeys(html, 0)
      invariant placeholders == Unique(seen)
      decreases |html| - lastIndex
    {
      var key := Key(html, m.value);
      CollectStep(html, lastIndex, seen);
      if key !in placeholders {
        placeholders := placeholders + [key];
      }
      seen := seen + [key];
      lastIndex := m.value.end;
      m := NextPlaceholder(html, lastIndex);
    }
    assert seen == PlaceholderKeys(html, 0);
    UniqueNoDuplicates(seen);
    UniqueMembers(seen);
    UniqueFirstOccurrenceOrder(seen);
  }
}
