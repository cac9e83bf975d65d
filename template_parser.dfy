/**
 * parseTemplateHTML (backend/utils/templateParser.js): the template html is cut into sections,
 * one per match of `/(<table[^>]*data-section-type="([^"]+)"[^>]*>[\s\S]*?<\/table>)/g`; each
 * section records its `{{ key }}` placeholders and numbers its `<img ...>` tags `image_0`,
 * `image_1`, ... with one counter shared by the whole template. Section ids come from `freshId`,
 * which stands for the k-th call of the uuid generator.
 */
module TemplateParser {
  import opened Js
  import opened Placeholders

  const TableOpen := "<table"
  const Marker := "data-section-type=\""
  const TableClose := "</table>"

  /**
   * One match of the section pattern: `<table` at `start`, the captured type at `typeStart..typeEnd`
   * (the closing quote at `typeEnd`), the `>` ending the opening tag at `tagEnd`, and the match
   * ending, after `</table>`, before `end`.
   */
  datatype SectionMatch = SectionMatch(start: nat, typeStart: nat, typeEnd: nat, tagEnd: nat, end: nat)

  /**
   * Every way the pattern can match at `m.start` with the lazy body stopping at the first
   * `</table>`: no `>` before the marker, a non-empty quote-free type, no `>` up to the end of the
   * opening tag.
   */
  ghost predicate IsSection(s: string, m: SectionMatch)
  {
    && m.start + 6 + 19 <= m.typeStart < m.typeEnd < m.tagEnd
    && m.tagEnd + 1 + 8 <= m.end <= |s|
    && StartsAt(s, m.start, TableOpen)
    && (forall k :: m.start + 6 <= k < m.typeStart - 19 ==> s[k] != '>')
    && StartsAt(s, m.typeStart - 19, Marker)
    && (forall k :: m.typeStart <= k < m.typeEnd ==> s[k] != '"')
    && s[m.typeEnd] == '"'
    && (forall k :: m.typeEnd < k < m.tagEnd ==> s[k] != '>')
    && s[m.tagEnd] == '>'
    && StartsAt(s, m.end - 8, TableClose)
    && (forall k :: m.tagEnd + 1 <= k < m.end - 8 ==> !StartsAt(s, k, TableClose))
  }

  /** The positions of a match lie in order inside the input. */
  predicate InBounds(s: string, m: SectionMatch)
  {
    m.start < m.typeStart <= m.typeEnd < m.end <= |s|
  }

  /** The rest of the pattern once the first `[^>]*` has stopped in front of the marker at `a`. */
  function CompleteAt(s: string, p: nat, a: nat): (r: Option<SectionMatch>)
    requires a <= |s|
    ensures r.Some? ==> r.value.start == p
  {
    if !StartsAt(s, a, Marker) then None else AfterMarker(s, p, a + 19)
  }

  /** The pattern from just after the marker: `([^"]+)"` needs a non-empty run before the next quote. */
  function AfterMarker(s: string, p: nat, b: nat): (r: Option<SectionMatch>)
    requires b <= |s|
    ensures r.Some? ==> r.value.start == p && r.value.typeStart == b
  {
    match IndexOfChar(s, '"', b)
    case None => None
    case Some(c) => if c == b then None else AfterType(s, p, b, c)
  }

  /** The quote closing the type at `c`: `[^>]*>` ends the opening tag at the next `>`. */
  function AfterType(s: string, p: nat, b: nat, c: nat): (r: Option<SectionMatch>)
    requires c < |s|
    ensures r.Some? ==> r.value.start == p && r.value.typeStart == b && r.value.typeEnd == c
  {
    match IndexOfChar(s, '>', c + 1)
    case None => None
    case Some(d) => AfterTag(s, p, b, c, d)
  }

  /** The opening tag ends at `d`: the lazy body runs to the first `</table>`. */
  function AfterTag(s: string, p: nat, b: nat, c: nat, d: nat): (r: Option<SectionMatch>)
    requires d < |s|
    ensures r.Some? ==> r.value.start == p && r.value.typeStart == b && r.value.typeEnd == c && r.value.tagEnd == d
  {
    match IndexOfStr(s, TableClose, d + 1)
    case None => None
    case Some(e) => Some(SectionMatch(p, b, c, d, e + 8))
  }

  /** Backtracking through the greedy first `[^>]*`: the marker positions `a`, `a - 1`, ..., `p + 6`. */
  function TryMarker(s: string, p: nat, a: nat): (r: Option<SectionMatch>)
    requires p + 6 <= a <= |s|
    ensures r.Some? ==> r.value.start == p
    decreases a
  {
    var here := CompleteAt(s, p, a);
    if here.Some? then here
    else if a == p + 6 then None
    else TryMarker(s, p, a - 1)
  }

  /** How far the first `[^>]*` can reach from `p + 6`: the first `>`, or the end of the input. */
  function TagLimit(s: string, from: nat): (l: nat)
    requires from <= |s|
    ensures from <= l <= |s|
    ensures forall k :: from <= k < l ==> s[k] != '>'
    ensures l < |s| ==> s[l] == '>'
  {
    match IndexOfChar(s, '>', from)
    case Some(l) => l
    case None => |s|
  }

  /** The pattern tried at position `p`. */
  function SectionAt(s: string, p: nat): (r: Option<SectionMatch>)
    requires p <= |s|
    ensures r.Some? ==> r.value.start == p
  {
    if !StartsAt(s, p, TableOpen) then None
    else TryMarker(s, p, TagLimit(s, p + 6))
  }

  lemma CompleteAtSound(s: string, p: nat, a: nat)
    requires p + 6 <= a <= |s|
    requires forall k :: p + 6 <= k < a ==> s[k] != '>'
    requires StartsAt(s, p, TableOpen)
    requires CompleteAt(s, p, a).Some?
    ensures IsSection(s, CompleteAt(s, p, a).value)
    ensures CompleteAt(s, p, a).value.start == p && CompleteAt(s, p, a).value.typeStart == a + 19
  {
  }

  lemma {:induction false} TryMarkerSound(s: string, p: nat, a: nat)
    requires p + 6 <= a <= |s|
    requires forall k :: p + 6 <= k < a ==> s[k] != '>'
    requires StartsAt(s, p, TableOpen)
    requires TryMarker(s, p, a).Some?
    ensures IsSection(s, TryMarker(s, p, a).value) && TryMarker(s, p, a).value.start == p
    decreases a
  {
    if CompleteAt(s, p, a).Some? {
      CompleteAtSound(s, p, a);
    } else {
      TryMarkerSound(s, p, a - 1);
    }
  }

  /** Whatever the pattern matches at `p` has the section shape. */
  lemma SectionAtSound(s: string, p: nat)
    requires p <= |s| && SectionAt(s, p).Some?
    ensures IsSection(s, SectionAt(s, p).value) && SectionAt(s, p).value.start == p
  {
    TryMarkerSound(s, p, TagLimit(s, p + 6));
  }

  /** A section shape is determined by where it starts and where its type starts. */
  lemma CompleteAtOfSection(s: string, m: SectionMatch)
    requires IsSection(s, m)
    ensures CompleteAt(s, m.start, m.typeStart - 19) == Some(m)
  {
    var a := m.typeStart - 19;
    IndexOfCharAt(s, '"', a + 19, m.typeEnd);
    IndexOfCharAt(s, '>', m.typeEnd + 1, m.tagEnd);
    IndexOfStrAt(s, TableClose, m.tagEnd + 1, m.end - 8);
    CompleteAtFound(s, m.start, a, m.typeEnd, m.tagEnd, m.end - 8);
  }

  /** The rest of the pattern succeeds once each of its searches finds its character or string. */
  lemma CompleteAtFound(s: string, p: nat, a: nat, c: nat, d: nat, e: nat)
    requires a + 19 <= |s| && StartsAt(s, a, Marker)
    requires IndexOfChar(s, '"', a + 19) == Some(c) && c != a + 19
    requires IndexOfChar(s, '>', c + 1) == Some(d)
    requires IndexOfStr(s, TableClose, d + 1) == Some(e)
    ensures CompleteAt(s, p, a) == Some(SectionMatch(p, a + 19, c, d, e + 8))
  {
    AfterMarkerFound(s, p, a + 19, c, d, e);
  }

  lemma AfterMarkerFound(s: string, p: nat, b: nat, c: nat, d: nat, e: nat)
    requires b <= |s|
    requires IndexOfChar(s, '"', b) == Some(c) && c != b
    requires IndexOfChar(s, '>', c + 1) == Some(d)
    requires IndexOfStr(s, TableClose, d + 1) == Some(e)
    ensures AfterMarker(s, p, b) == Some(SectionMatch(p, b, c, d, e + 8))
  {
    AfterTypeFound(s, p, b, c, d, e);
  }

  lemma AfterTypeFound(s: string, p: nat, b: nat, c: nat, d: nat, e: nat)
    requires c < |s|
    requires IndexOfChar(s, '>', c + 1) == Some(d)
    requires IndexOfStr(s, TableClose, d + 1) == Some(e)
    ensures AfterType(s, p, b, c) == Some(SectionMatch(p, b, c, d, e + 8))
  {
    AfterTagFound(s, p, b, c, d, e);
  }

  lemma AfterTagFound(s: string, p: nat, b: nat, c: nat, d: nat, e: nat)
    requires d < |s|
    requires IndexOfStr(s, TableClose, d + 1) == Some(e)
    ensures AfterTag(s, p, b, c, d) == Some(SectionMatch(p, b, c, d, e + 8))
  {
  }

  lemma IndexOfCharAt(s: string, c: char, from: nat, i: nat)
    requires from <= i < |s| && s[i] == c
    requires forall k :: from <= k < i ==> s[k] != c
    ensures IndexOfChar(s, c, from) == Some(i)
  {
    var r := IndexOfChar(s, c, from);
    assert r.Some?;
    assert s[r.value] == c;
  }

  lemma IndexOfStrAt(s: string, pat: string, from: nat, i: nat)
    requires from <= i && StartsAt(s, i, pat)
    requires forall k :: from <= k < i ==> !StartsAt(s, k, pat)
    ensures IndexOfStr(s, pat, from) == Some(i)
  {
    var r := IndexOfStr(s, pat, from);
    assert r.Some?;
    assert StartsAt(s, r.value, pat);
  }

  /** Trying markers from `a` down finds one at least as late as any shape whose marker is at or below `a`. */
  lemma {:induction false} TryMarkerComplete(s: string, m: SectionMatch, a: nat)
    requires IsSection(s, m)
    requires m.start + 6 <= m.typeStart - 19 <= a <= |s|
    ensures TryMarker(s, m.start, a).Some?
    ensures TryMarker(s, m.start, a).value.typeStart >= m.typeStart
    decreases a
  {
    if CompleteAt(s, m.start, a).Some? {
      assert CompleteAt(s, m.start, a).value.typeStart == a + 19;
    } else if a == m.typeStart - 19 {
      CompleteAtOfSection(s, m);
    } else {
      TryMarkerComplete(s, m, a - 1);
    }
  }

  /**
   * The pattern matches at every start of a section shape, and of the candidate shapes there it
   * picks the one whose `data-section-type="` marker comes last (the first `[^>]*` is greedy).
   */
  lemma SectionAtComplete(s: string, m: SectionMatch)
    requires IsSection(s, m)
    ensures SectionAt(s, m.start).Some?
    ensures SectionAt(s, m.start).value.typeStart >= m.typeStart
  {
    var l := TagLimit(s, m.start + 6);
    assert m.typeStart - 19 <= l;
    TryMarkerComplete(s, m, l);
  }

  /** `sectionRegex.exec(s)` with `lastIndex == from`: the leftmost match at or after `from`. */
  function NextSection(s: string, from: nat): (r: Option<SectionMatch>)
    requires from <= |s|
    ensures r.Some? ==> from <= r.value.start <= |s| && SectionAt(s, r.value.start) == r
    ensures r.Some? ==> forall p :: from <= p < r.value.start ==> SectionAt(s, p).None?
    ensures r.None? ==> forall p :: from <= p <= |s| ==> SectionAt(s, p).None?
    decreases |s| - from
  {
    var here := SectionAt(s, from);
    if here.Some? then here
    else if from == |s| then None
    else NextSection(s, from + 1)
  }

  lemma NextSectionShape(s: string, from: nat)
    requires from <= |s| && NextSection(s, from).Some?
    ensures IsSection(s, NextSection(s, from).value)
    ensures from <= NextSection(s, from).value.start
  {
    SectionAtSound(s, NextSection(s, from).value.start);
  }

  lemma NextSectionBounds(s: string, from: nat)
    requires from <= |s| && NextSection(s, from).Some?
    ensures InBounds(s, NextSection(s, from).value)
  {
    NextSectionShape(s, from);
  }

  // ---------------------------------------------------------------------------
  // `<img[^>]*>`
  // ---------------------------------------------------------------------------

  /** The image pattern at `p`: `<img`, then everything up to and including the first `>`. */
  function ImgAt(s: string, p: nat): (r: Option<nat>)
    requires p <= |s|
    ensures r.Some? ==> p + 4 < r.value <= |s| && s[r.value - 1] == '>' && StartsAt(s, p, "<img")
    ensures r.Some? ==> forall k :: p + 4 <= k < r.value - 1 ==> s[k] != '>'
  {
    if !StartsAt(s, p, "<img") then None
    else
      match IndexOfChar(s, '>', p + 4)
      case None => None
      case Some(q) => Some(q + 1)
  }

  datatype ImgMatch = ImgMatch(start: nat, end: nat)

  function NextImg(s: string, from: nat): (r: Option<ImgMatch>)
    requires from <= |s|
    ensures r.Some? ==> from <= r.value.start < r.value.end <= |s| && ImgAt(s, r.value.start) == Some(r.value.end)
    ensures r.Some? ==> forall p :: from <= p < r.value.start ==> ImgAt(s, p).None?
    ensures r.None? ==> forall p :: from <= p <= |s| ==> ImgAt(s, p).None?
    decreases |s| - from
  {
    match ImgAt(s, from)
    case Some(e) => Some(ImgMatch(from, e))
    case None => if from == |s| then None else NextImg(s, from + 1)
  }

  /** How many matches the scan for `<img[^>]*>` finds from `from` on, each search resuming after the last match. */
  function ImgCount(s: string, from: nat): nat
    requires from <= |s|
    decreases |s| - from
  {
    if from == |s| then 0
    else
      match ImgAt(s, from)
      case Some(e) => 1 + ImgCount(s, e)
      case None => ImgCount(s, from + 1)
  }

  /** The count is what the global `exec` loop observes: one per successful call. */
  lemma {:induction false} ImgCountStep(s: string, from: nat)
    requires from <= |s|
    ensures ImgCount(s, from) == match NextImg(s, from) case None => 0 case Some(m) => 1 + ImgCount(s, m.end)
    decreases |s| - from
  {
    if from < |s| && ImgAt(s, from).None? {
      ImgCountStep(s, from + 1);
    }
  }

  /** The image loop runs at least once exactly when the pattern matches somewhere. */
  lemma ImgCountPositive(s: string, from: nat)
    requires from <= |s|
    ensures ImgCount(s, from) > 0 <==> exists p :: from <= p <= |s| && ImgAt(s, p).Some?
  {
    ImgCountStep(s, from);
    var r := NextImg(s, from);
    if r.Some? {
      assert ImgAt(s, r.value.start).Some?;
    }
  }

  // ---------------------------------------------------------------------------
  // Sections
  // ---------------------------------------------------------------------------

  /** `{ id, type, html, content }` as pushed by the parser. */
  datatype Section = Section(id: string, sectionType: string, html: string, content: seq<Field>)

  /** The object `{ k1: '', k2: '', ... }` with keys in insertion order. */
  function Blank(keys: seq<string>): (fs: seq<Field>)
    ensures |fs| == |keys|
    ensures forall i :: 0 <= i < |keys| ==> fs[i] == Field(keys[i], JStr(""))
  {
    seq(|keys|, i requires 0 <= i < |keys| => Field(keys[i], JStr("")))
  }

  /** `obj[key] = v`: an existing key keeps its place and gets the new value, a new key is appended. */
  function Assign(fields: seq<Field>, key: string, v: Json): (r: seq<Field>)
  {
    if fields == [] then [Field(key, v)]
    else if fields[0].key == key then [Field(key, v)] + fields[1..]
    else [fields[0]] + Assign(fields[1..], key, v)
  }

  lemma {:induction false} AssignBlankPresent(keys: seq<string>, key: string)
    requires key in keys
    ensures Assign(Blank(keys), key, JStr("")) == Blank(keys)
  {
    var fs := Blank(keys);
    if keys[0] != key {
      assert Blank(keys)[1..] == Blank(keys[1..]);
      AssignBlankPresent(keys[1..], key);
    }
  }

  lemma {:induction false} AssignBlankAbsent(keys: seq<string>, key: string)
    requires key !in keys
    ensures Assign(Blank(keys), key, JStr("")) == Blank(keys + [key])
  {
    if keys != [] {
      assert Blank(keys)[1..] == Blank(keys[1..]);
      AssignBlankAbsent(keys[1..], key);
      assert (keys + [key])[1..] == keys[1..] + [key];
      assert Blank(keys + [key])[1..] == Blank(keys[1..] + [key]);
    }
  }

  /** Setting `content[key] = ''` on the blank object of the distinct keys seen so far. */
  lemma AssignUnique(xs: seq<string>, key: string)
    ensures Assign(Blank(Unique(xs)), key, JStr("")) == Blank(Unique(xs + [key]))
  {
    UniqueAppend(xs, key);
    if key in Unique(xs) {
      AssignBlankPresent(Unique(xs), key);
    } else {
      AssignBlankAbsent(Unique(xs), key);
    }
  }

  /**
   * The one key `[a-zA-Z0-9_]+` can spell that a plain object does not take as an own key:
   * `obj['__proto__'] = v` runs the setter inherited from `Object.prototype`, which ignores a
   * value that is neither an object nor null.
   */
  const ProtoKey := "__proto__"

  /** `obj[key] = ''` on an object made with `{}`. */
  function SetBlank(fields: seq<Field>, key: string): seq<Field>
  {
    if key == ProtoKey then fields else Assign(fields, key, JStr(""))
  }

  /** The keys that become own keys when assigned in order: every key but `__proto__`. */
  function OwnKeys(keys: seq<string>): (r: seq<string>)
    ensures forall x :: x in r <==> x in keys && x != ProtoKey
  {
    if keys == [] then []
    else (if keys[0] == ProtoKey then [] else [keys[0]]) + OwnKeys(keys[1..])
  }

  lemma {:induction false} OwnKeysAppend(keys: seq<string>, key: string)
    ensures OwnKeys(keys + [key]) == OwnKeys(keys) + (if key == ProtoKey then [] else [key])
  {
    if keys != [] {
      assert (keys + [key])[1..] == keys[1..] + [key];
      OwnKeysAppend(keys[1..], key);
    }
  }

  /** Setting `content[key] = ''` on the blank object of the distinct own keys seen so far. */
  lemma SetBlankUnique(xs: seq<string>, key: string)
    ensures SetBlank(Blank(Unique(OwnKeys(xs))), key) == Blank(Unique(OwnKeys(xs + [key])))
  {
    OwnKeysAppend(xs, key);
    if key != ProtoKey {
      AssignUnique(OwnKeys(xs), key);
    } else {
      assert OwnKeys(xs) + [] == OwnKeys(xs);
      assert OwnKeys(xs + [key]) == OwnKeys(xs);
      assert SetBlank(Blank(Unique(OwnKeys(xs))), key) == Blank(Unique(OwnKeys(xs)));
    }
  }

  /** `image_${n}` */
  function ImageKey(n: nat): string
  {
    "image_" + NatToString(n)
  }

  lemma ImageKeyNotProto(n: nat)
    ensures ImageKey(n) != ProtoKey
  {
    assert ImageKey(n)[0] == 'i';
  }

  lemma ImageKeyInjective(a: nat, b: nat)
    requires ImageKey(a) == ImageKey(b)
    ensures a == b
  {
    assert NatToString(a) == ImageKey(a)[6..] == ImageKey(b)[6..] == NatToString(b);
    NatToStringInjective(a, b);
  }

  /** The keys `image_c`, ..., `image_(c+n-1)` given out to `n` images while the counter starts at `c`. */
  function ImageKeys(c: nat, n: nat): (ks: seq<string>)
    ensures |ks| == n
    ensures forall i :: 0 <= i < n ==> ks[i] == ImageKey(c + i)
  {
    seq(n, i requires 0 <= i < n => ImageKey(c + i))
  }

  /** The content object of one section: its own text keys first, then its images, every value empty. */
  function SectionContent(html: string, counter: nat): seq<Field>
  {
    Blank(Unique(OwnKeys(PlaceholderKeys(html, 0)) + ImageKeys(counter, ImgCount(html, 0))))
  }

  predicate AllInBounds(s: string, ms: seq<SectionMatch>)
  {
    forall t :: 0 <= t < |ms| ==> InBounds(s, ms[t])
  }

  /** The matches visited by the global `exec` loop from `from` on. */
  function SectionMatches(s: string, from: nat): (ms: seq<SectionMatch>)
    requires from <= |s|
    ensures AllInBounds(s, ms)
    ensures forall i :: 0 <= i < |ms| ==> from <= ms[i].start
    decreases |s| - from
  {
    match NextSection(s, from)
    case None => []
    case Some(m) =>
      NextSectionBounds(s, from);
      [m] + SectionMatches(s, m.end)
  }

  /** The two captures of a match: `match[2]` (the type) and `match[1]` (the whole section html). */
  datatype Capture = Capture(sectionType: string, html: string)

  function CaptureOf(s: string, m: SectionMatch): Capture
    requires InBounds(s, m)
  {
    Capture(s[m.typeStart..m.typeEnd], s[m.start..m.end])
  }

  function Captures(s: string, ms: seq<SectionMatch>): (cs: seq<Capture>)
    requires AllInBounds(s, ms)
    ensures |cs| == |ms|
    ensures forall i :: 0 <= i < |ms| ==> cs[i] == CaptureOf(s, ms[i])
  {
    seq(|ms|, i requires 0 <= i < |ms| => CaptureOf(s, ms[i]))
  }

  /** The section pushed for a capture while the image counter stands at `counter`. */
  function SectionOf(c: Capture, counter: nat, id: string): Section
  {
    Section(id, c.sectionType, c.html, SectionContent(c.html, counter))
  }

  /**
   * What parseTemplateHTML returns for `s`: one section per visited match, in match order; the
   * `i`-th has the `i`-th fresh id and numbers its images on from the images of all sections
   * before it, since the image counter is shared by the whole template.
   */
  function ParsedSections(s: string, freshId: nat -> string): (ps: seq<Section>)
  {
    var cs := Captures(s, SectionMatches(s, 0));
    seq(|cs|, i requires 0 <= i < |cs| => SectionOf(cs[i], ImagesBefore(cs, i), freshId(i)))
  }

  /** Images given out before the `i`-th section: the counter value that section starts from. */
  function ImagesBefore(cs: seq<Capture>, i: nat): nat
    requires i <= |cs|
  {
    if i == 0 then 0 else ImagesBefore(cs, i - 1) + ImgCount(cs[i - 1].html, 0)
  }

  // ---------------------------------------------------------------------------
  // The exec loop, its order and non-overlap
  // ---------------------------------------------------------------------------

  lemma SectionMatchesStep(s: string, from: nat)
    requires from <= |s|
    ensures NextSection(s, from).None? ==> SectionMatches(s, from) == []
    ensures NextSection(s, from).Some? ==>
      && InBounds(s, NextSection(s, from).value)
      && SectionMatches(s, from) == [NextSection(s, from).value] + SectionMatches(s, NextSection(s, from).value.end)
  {
    if NextSection(s, from).Some? {
      NextSectionBounds(s, from);
    }
  }

  /** No section pattern at all: the result is empty. */
  lemma NoSectionEmpty(s: string, freshId: nat -> string)
    requires forall p :: 0 <= p <= |s| ==> SectionAt(s, p).None?
    ensures ParsedSections(s, freshId) == []
  {
    assert NextSection(s, 0).None?;
    SectionMatchesStep(s, 0);
    assert |ParsedSections(s, freshId)| == 0;
  }

  /** Consecutive visited matches are in order and do not overlap. */
  lemma {:induction false} SectionMatchesOrdered(s: string, from: nat)
    requires from <= |s|
    ensures var ms := SectionMatches(s, from);
      forall i :: 0 <= i < |ms| - 1 ==> ms[i].end <= ms[i + 1].start
    decreases |s| - from
  {
    SectionMatchesStep(s, from);
    var ms := SectionMatches(s, from);
    if ms != [] {
      var m := ms[0];
      var rest := SectionMatches(s, m.end);
      SectionMatchesOrdered(s, m.end);
      assert ms == [m] + rest;
      forall i | 0 <= i < |ms| - 1 ensures ms[i].end <= ms[i + 1].start {
        if i > 0 { assert ms[i] == rest[i - 1] && ms[i + 1] == rest[i]; }
      }
    }
  }

  /** Each visited match is what the pattern matches at its start, so it has the section shape. */
  lemma {:induction false} SectionMatchesAreSections(s: string, from: nat)
    requires from <= |s|
    ensures var ms := SectionMatches(s, from);
      forall i :: 0 <= i < |ms| ==> SectionAt(s, ms[i].start) == Some(ms[i]) && IsSection(s, ms[i])
    decreases |s| - from
  {
    SectionMatchesStep(s, from);
    var ms := SectionMatches(s, from);
    if ms != [] {
      var m := ms[0];
      var rest := SectionMatches(s, m.end);
      SectionMatchesAreSections(s, m.end);
      NextSectionShape(s, from);
      assert ms == [m] + rest;
      forall i | 0 <= i < |ms| ensures SectionAt(s, ms[i].start) == Some(ms[i]) && IsSection(s, ms[i]) {
        if i > 0 { assert ms[i] == rest[i - 1]; }
      }
    }
  }

  /**
   * The loop skips nothing: the pattern matches nowhere before the first visited match, between
   * two consecutive ones, or after the last (and nowhere at all when none is visited).
   */
  lemma {:induction false} SectionMatchesGaps(s: string, from: nat)
    requires from <= |s|
    ensures var ms := SectionMatches(s, from);
      && (forall i, p :: 0 <= i < |ms| - 1 && ms[i].end <= p < ms[i + 1].start ==> SectionAt(s, p).None?)
      && (|ms| == 0 ==> forall p :: from <= p <= |s| ==> SectionAt(s, p).None?)
      && (|ms| > 0 ==> forall p :: from <= p < ms[0].start ==> SectionAt(s, p).None?)
      && (|ms| > 0 ==> forall p :: ms[|ms| - 1].end <= p <= |s| ==> SectionAt(s, p).None?)
  {
    SectionMatchesFirstGap(s, from);
    SectionMatchesInnerGaps(s, from);
    SectionMatchesLastGap(s, from);
  }

  lemma SectionMatchesFirstGap(s: string, from: nat)
    requires from <= |s|
    ensures var ms := SectionMatches(s, from);
      && (|ms| == 0 ==> forall p :: from <= p <= |s| ==> SectionAt(s, p).None?)
      && (|ms| > 0 ==> forall p :: from <= p < ms[0].start ==> SectionAt(s, p).None?)
  {
    SectionMatchesStep(s, from);
  }

  lemma {:induction false} SectionMatchesInnerGaps(s: string, from: nat)
    requires from <= |s|
    ensures var ms := SectionMatches(s, from);
      forall i, p :: 0 <= i < |ms| - 1 && ms[i].end <= p < ms[i + 1].start ==> SectionAt(s, p).None?
    decreases |s| - from
  {
    SectionMatchesStep(s, from);
    var ms := SectionMatches(s, from);
    if ms != [] {
      var m := ms[0];
      var rest := SectionMatches(s, m.end);
      SectionMatchesInnerGaps(s, m.end);
      SectionMatchesFirstGap(s, m.end);
      forall i, p | 0 <= i < |ms| - 1 && ms[i].end <= p < ms[i + 1].start ensures SectionAt(s, p).None? {
        if i > 0 { assert ms[i] == rest[i - 1] && ms[i + 1] == rest[i]; }
        else { assert ms[1] == rest[0]; }
      }
    }
  }

  lemma {:induction false} SectionMatchesLastGap(s: string, from: nat)
    requires from <= |s|
    ensures var ms := SectionMatches(s, from);
      |ms| > 0 ==> forall p :: ms[|ms| - 1].end <= p <= |s| ==> SectionAt(s, p).None?
    decreases |s| - from
  {
    SectionMatchesStep(s, from);
    var ms := SectionMatches(s, from);
    if ms != [] {
      var m := ms[0];
      var rest := SectionMatches(s, m.end);
      SectionMatchesLastGap(s, m.end);
      SectionMatchesFirstGap(s, m.end);
      if rest != [] {
        assert ms[|ms| - 1] == rest[|rest| - 1];
      }
    }
  }

  /**
   * A section's html spans from its `<table` to the first `</table>` after its opening tag, and
   * its type is non-empty and free of `"`.
   */
  lemma SectionShape(s: string, m: SectionMatch)
    requires IsSection(s, m)
    ensures var c := CaptureOf(s, m);
      && StartsWith(c.html, TableOpen)
      && StartsAt(c.html, |c.html| - 8, TableClose)
      && (forall k :: m.tagEnd + 1 - m.start <= k < |c.html| - 8 ==> !StartsAt(c.html, k, TableClose))
      && |c.sectionType| > 0
      && (forall k :: 0 <= k < |c.sectionType| ==> c.sectionType[k] != '"')
  {
    var html := s[m.start..m.end];
    StartsAtSlice(s, m.start, m.end, 0, TableOpen);
    StartsAtSlice(s, m.start, m.end, |html| - 8, TableClose);
    forall k | m.tagEnd + 1 - m.start <= k < |html| - 8 ensures !StartsAt(html, k, TableClose) {
      StartsAtSlice(s, m.start, m.end, k, TableClose);
    }
  }

  /** Matching inside a slice is matching at the shifted position of the whole string. */
  lemma StartsAtSlice(s: string, lo: nat, hi: nat, k: nat, pat: string)
    requires lo <= hi <= |s| && k + |pat| <= hi - lo
    ensures StartsAt(s[lo..hi], k, pat) <==> StartsAt(s, lo + k, pat)
  {
    var sub := s[lo..hi];
    var x, y := sub[k..k + |pat|], s[lo + k..lo + k + |pat|];
    assert forall j :: 0 <= j < |pat| ==> x[j] == y[j];
    assert x == y;
  }

  // ---------------------------------------------------------------------------
  // Ids, contents and the shared image counter
  // ---------------------------------------------------------------------------

  /** The counter only grows from one section to the next. */
  lemma {:induction false} ImagesBeforeMonotone(cs: seq<Capture>, i: nat, j: nat)
    requires i <= j <= |cs|
    ensures ImagesBefore(cs, i) <= ImagesBefore(cs, j)
    decreases j
  {
    if i < j {
      ImagesBeforeMonotone(cs, i, j - 1);
    }
  }

  /** The image keys given to the `i`-th section. */
  function SectionImageKeys(cs: seq<Capture>, i: nat): seq<string>
    requires i < |cs|
  {
    ImageKeys(ImagesBefore(cs, i), ImgCount(cs[i].html, 0))
  }

  /** Because the counter is never reset, two different sections never get the same image key. */
  lemma ImageKeysDisjoint(cs: seq<Capture>, i: nat, j: nat, x: string)
    requires 0 <= i < j < |cs|
    requires x in SectionImageKeys(cs, i)
    ensures x !in SectionImageKeys(cs, j)
  {
    ImagesBeforeMonotone(cs, i + 1, j);
    ImageRangesDisjoint(ImagesBefore(cs, i), ImgCount(cs[i].html, 0), ImagesBefore(cs, j), ImgCount(cs[j].html, 0), x);
  }

  /** Counter ranges that do not overlap give out different keys. */
  lemma ImageRangesDisjoint(b1: nat, n1: nat, b2: nat, n2: nat, x: string)
    requires b1 + n1 <= b2
    requires x in ImageKeys(b1, n1)
    ensures x !in ImageKeys(b2, n2)
  {
    var a := ImageKeyIndex(b1, n1, x);
    if x in ImageKeys(b2, n2) {
      var b := ImageKeyIndex(b2, n2, x);
      ImageKeyInjective(b1 + a, b2 + b);
    }
  }

  lemma ImageKeyIndex(c: nat, n: nat, x: string) returns (i: nat)
    requires x in ImageKeys(c, n)
    ensures i < n && ImageKey(c + i) == x
  {
    var ks := ImageKeys(c, n);
    i :| 0 <= i < n && ks[i] == x;
  }

  /** All image keys in section order. */
  function AllImageKeys(cs: seq<Capture>, i: nat): seq<string>
    requires i <= |cs|
  {
    if i == 0 then [] else AllImageKeys(cs, i - 1) + SectionImageKeys(cs, i - 1)
  }

  /** Together the sections' image keys are exactly `image_0`, ..., `image_(N-1)`, `N` the images in all of them. */
  lemma {:induction false} AllImageKeysNumbered(cs: seq<Capture>, i: nat)
    requires i <= |cs|
    ensures AllImageKeys(cs, i) == ImageKeys(0, ImagesBefore(cs, i))
  {
    if i > 0 {
      var b, n := ImagesBefore(cs, i - 1), ImgCount(cs[i - 1].html, 0);
      AllImageKeysNumbered(cs, i - 1);
      ImageKeysSplit(b, n);
      assert ImagesBefore(cs, i) == b + n;
    }
  }

  lemma ImageKeysSplit(b: nat, n: nat)
    ensures ImageKeys(0, b) + ImageKeys(b, n) == ImageKeys(0, b + n)
  {
    var xs, ys := ImageKeys(0, b) + ImageKeys(b, n), ImageKeys(0, b + n);
    forall i | 0 <= i < b + n ensures xs[i] == ys[i] {
      if i >= b {
        assert xs[i] == ImageKeys(b, n)[i - b];
      }
    }
  }

  /** `__proto__` is never among an image key list. */
  lemma ImageKeysNotProto(c: nat, n: nat)
    ensures ProtoKey !in ImageKeys(c, n)
  {
    forall i | 0 <= i < n
      ensures ImageKeys(c, n)[i] != ProtoKey
    {
      ImageKeyNotProto(c + i);
    }
  }

  /** Every `{{ key }}` in a section's html becomes a content key of that section, unless it is `__proto__`. */
  lemma SectionContentHasPlaceholder(html: string, counter: nat, m: PlaceholderMatch)
    requires IsPlaceholder(html, m)
    ensures Key(html, m) in KeysOf(SectionContent(html, counter)) <==> Key(html, m) != ProtoKey
  {
    PlaceholderKeysComplete(html, 0, m);
    var xs := OwnKeys(PlaceholderKeys(html, 0)) + ImageKeys(counter, ImgCount(html, 0));
    UniqueMembers(xs);
    var u := Unique(xs);
    assert KeysOf(SectionContent(html, counter)) == u;
    ImageKeysNotProto(counter, ImgCount(html, 0));
    if Key(html, m) != ProtoKey {
      assert Key(html, m) in xs;
    }
  }

  /**
   * A section's content has each key exactly once, holds exactly its placeholder keys other than
   * `__proto__` and its image keys, and maps every key to the empty string.
   */
  lemma SectionContentShape(html: string, counter: nat)
    ensures var c := SectionContent(html, counter);
      var images := ImageKeys(counter, ImgCount(html, 0));
      && NoDuplicates(KeysOf(c))
      && (forall x :: x in KeysOf(c) <==> (x in PlaceholderKeys(html, 0) && x != ProtoKey) || x in images)
      && ProtoKey !in KeysOf(c)
      && (forall i :: 0 <= i < |c| ==> c[i].value == JStr(""))
  {
    var xs := OwnKeys(PlaceholderKeys(html, 0)) + ImageKeys(counter, ImgCount(html, 0));
    UniqueNoDuplicates(xs);
    UniqueMembers(xs);
    ImageKeysNotProto(counter, ImgCount(html, 0));
    assert KeysOf(SectionContent(html, counter)) == Unique(xs);
  }

  // ---------------------------------------------------------------------------
  // The parser as written: three exec loops
  // ---------------------------------------------------------------------------

  /** A word-character key is left as it is by `trim()`. */
  lemma TrimKey(s: string, m: PlaceholderMatch)
    requires IsPlaceholder(s, m)
    ensures Trim(Key(s, m)) == Key(s, m)
  {
    var k := Key(s, m);
    assert s[m.keyStart] == k[0] && s[m.keyEnd - 1] == k[|k| - 1];
    WordCharNotWhitespace(k[0]);
    WordCharNotWhitespace(k[|k| - 1]);
    assert TrimStart(k) == k;
    assert TrimEnd(k) == k;
  }

  lemma WordCharNotWhitespace(c: char)
    requires IsWordChar(c)
    ensures !IsWhitespace(c)
  {
  }

  /** Where the text loop stands: `seen` are the keys matched before `lastIndex`. */
  ghost predicate TextLoop(html: string, lastIndex: nat, seen: seq<string>, content: seq<Field>)
  {
    && lastIndex <= |html|
    && seen + PlaceholderKeys(html, lastIndex) == PlaceholderKeys(html, 0)
    && content == Blank(Unique(OwnKeys(seen)))
  }

  lemma TextLoopInit(html: string)
    ensures TextLoop(html, 0, [], [])
  {
    assert [] + PlaceholderKeys(html, 0) == PlaceholderKeys(html, 0);
  }

  lemma TextLoopStep(html: string, lastIndex: nat, seen: seq<string>, content: seq<Field>)
    requires TextLoop(html, lastIndex, seen, content)
    requires NextPlaceholder(html, lastIndex).Some?
    ensures var m := NextPlaceholder(html, lastIndex).value;
      && Trim(Key(html, m)) == Key(html, m)
      && TextLoop(html, m.end, seen + [Key(html, m)], SetBlank(content, Key(html, m)))
  {
    var m := NextPlaceholder(html, lastIndex).value;
    TrimKey(html, m);
    CollectStep(html, lastIndex, seen);
    SetBlankUnique(seen, Key(html, m));
  }

  lemma TextLoopDone(html: string, lastIndex: nat, seen: seq<string>, content: seq<Field>)
    requires TextLoop(html, lastIndex, seen, content)
    requires NextPlaceholder(html, lastIndex).None?
    ensures content == Blank(Unique(OwnKeys(PlaceholderKeys(html, 0))))
  {
    assert PlaceholderKeys(html, lastIndex) == [];
    assert seen + [] == seen;
  }

  /**
   * The text loop: `content[match[1].trim()] = ''` for every match of the placeholder pattern; a
   * placeholder named `__proto__` leaves no own key.
   */
  method CollectTextKeys(html: string) returns (content: seq<Field>)
    ensures content == Blank(Unique(OwnKeys(PlaceholderKeys(html, 0))))
  {
    content := [];
    ghost var seen: seq<string> := [];
    var lastIndex := 0;
    TextLoopInit(html);
    var m := NextPlaceholder(html, lastIndex);
    while m.Some?
      invariant TextLoop(html, lastIndex, seen, content)
      invariant m == NextPlaceholder(html, lastIndex)
      decreases |html| - lastIndex
    {
      TextLoopStep(html, lastIndex, seen, content);
      var key := Trim(Key(html, m.value));
      content := SetBlank(content, key);
      seen := seen + [Key(html, m.value)];
      lastIndex := m.value.end;
      m := NextPlaceholder(html, lastIndex);
    }
    TextLoopDone(html, lastIndex, seen, content);
  }

  /** Where the image loop stands: the images before `lastIndex` got `image_counter` onwards. */
  ghost predicate ImageLoop(html: string, keys: seq<string>, counter: nat, lastIndex: nat, imageCounter: nat, content: seq<Field>)
  {
    && lastIndex <= |html|
    && counter <= imageCounter
    && (imageCounter - counter) + ImgCount(html, lastIndex) == ImgCount(html, 0)
    && content == Blank(Unique(keys + ImageKeys(counter, imageCounter - counter)))
  }

  lemma ImageLoopInit(html: string, keys: seq<string>, counter: nat)
    ensures ImageLoop(html, keys, counter, 0, counter, Blank(Unique(keys)))
  {
    assert keys + ImageKeys(counter, 0) == keys;
  }

  lemma ImageLoopStep(html: string, keys: seq<string>, counter: nat, lastIndex: nat, imageCounter: nat, content: seq<Field>)
    requires ImageLoop(html, keys, counter, lastIndex, imageCounter, content)
    requires NextImg(html, lastIndex).Some?
    ensures ImageLoop(html, keys, counter, NextImg(html, lastIndex).value.end, imageCounter + 1,
                      Assign(content, ImageKey(imageCounter), JStr("")))
  {
    var n := imageCounter - counter;
    assert imageCounter == counter + n;
    ImgCountStep(html, lastIndex);
    ImageContentStep(keys, counter, n, content);
  }

  /** Giving out the next key appends it to the content. */
  lemma ImageContentStep(keys: seq<string>, counter: nat, n: nat, content: seq<Field>)
    requires content == Blank(Unique(keys + ImageKeys(counter, n)))
    ensures Assign(content, ImageKey(counter + n), JStr("")) == Blank(Unique(keys + ImageKeys(counter, n + 1)))
  {
    AssignUnique(keys + ImageKeys(counter, n), ImageKey(counter + n));
    ImageKeysPush(keys, counter, n);
  }

  lemma ImageKeysPush(keys: seq<string>, counter: nat, n: nat)
    ensures keys + ImageKeys(counter, n + 1) == (keys + ImageKeys(counter, n)) + [ImageKey(counter + n)]
  {
  }

  lemma ImageLoopDone(html: string, keys: seq<string>, counter: nat, lastIndex: nat, imageCounter: nat, content: seq<Field>)
    requires ImageLoop(html, keys, counter, lastIndex, imageCounter, content)
    requires NextImg(html, lastIndex).None?
    ensures content == Blank(Unique(keys + ImageKeys(counter, ImgCount(html, 0))))
    ensures imageCounter == counter + ImgCount(html, 0)
  {
    ImgCountStep(html, lastIndex);
  }

  /** The image loop: `content[`image_${imageCounter}`] = ''; imageCounter++` for every `<img ...>`. */
  method NumberImages(html: string, content0: seq<Field>, ghost keys: seq<string>, counter: nat)
    returns (content: seq<Field>, imageCounter: nat)
    requires content0 == Blank(Unique(keys))
    ensures content == Blank(Unique(keys + ImageKeys(counter, ImgCount(html, 0))))
    ensures imageCounter == counter + ImgCount(html, 0)
  {
    content := content0;
    imageCounter := counter;
    ImageLoopInit(html, keys, counter);
    var lastIndex := 0;
    var m := NextImg(html, lastIndex);
    while m.Some?
      invariant ImageLoop(html, keys, counter, lastIndex, imageCounter, content)
      invariant m == NextImg(html, lastIndex)
      decreases |html| - lastIndex
    {
      ImageLoopStep(html, keys, counter, lastIndex, imageCounter, content);
      content := Assign(content, ImageKey(imageCounter), JStr(""));
      imageCounter := imageCounter + 1;
      lastIndex := m.value.end;
      m := NextImg(html, lastIndex);
    }
    ImageLoopDone(html, keys, counter, lastIndex, imageCounter, content);
  }

  /**
   * Where the section loop stands after `k` turns: `lastIndex` is where the rest of the match
   * chain starts, the first `k` parsed sections have been pushed, and the counter holds the images
   * of those `k` sections.
   */
  ghost predicate SectionLoop(s: string, freshId: nat -> string, lastIndex: nat, k: nat, sections: seq<Section>, counter: nat)
  {
    var all := SectionMatches(s, 0);
    && lastIndex <= |s|
    && k <= |all|
    && SectionMatches(s, lastIndex) == all[k..]
    && |ParsedSections(s, freshId)| == |all|
    && sections == ParsedSections(s, freshId)[..k]
    && counter == ImagesBefore(Captures(s, all), k)
  }

  lemma SectionLoopInit(s: string, freshId: nat -> string)
    ensures SectionLoop(s, freshId, 0, 0, [], 0)
  {
    var all := SectionMatches(s, 0);
    assert all[0..] == all;
  }

  /** One turn of the section loop: the next match found is the next one of the chain. */
  lemma {:induction false} SectionLoopStep(s: string, freshId: nat -> string, lastIndex: nat, k: nat, sections: seq<Section>,
                          counter: nat, section: Section, nextCounter: nat)
    requires SectionLoop(s, freshId, lastIndex, k, sections, counter)
    requires NextSection(s, lastIndex).Some?
    requires var m := NextSection(s, lastIndex).value;
      && m.start <= m.end <= |s| && m.typeStart <= m.typeEnd <= |s|
      && section == SectionOf(Capture(s[m.typeStart..m.typeEnd], s[m.start..m.end]), counter, freshId(k))
      && nextCounter == counter + ImgCount(s[m.start..m.end], 0)
    ensures SectionLoop(s, freshId, NextSection(s, lastIndex).value.end, k + 1, sections + [section], nextCounter)
  {
    var m := NextSection(s, lastIndex).value;
    ChainStep(s, lastIndex, k);
    ParsedStep(s, freshId, k, m, sections, section);
  }

  /** The match found next is the `k`-th of the chain, and the chain goes on from its end. */
  lemma ChainStep(s: string, lastIndex: nat, k: nat)
    requires lastIndex <= |s| && k <= |SectionMatches(s, 0)|
    requires SectionMatches(s, lastIndex) == SectionMatches(s, 0)[k..]
    requires NextSection(s, lastIndex).Some?
    ensures var all, m := SectionMatches(s, 0), NextSection(s, lastIndex).value;
      && k < |all| && all[k] == m && m.end <= |s|
      && SectionMatches(s, m.end) == all[k + 1..]
  {
    var all := SectionMatches(s, 0);
    var m := NextSection(s, lastIndex).value;
    SectionMatchesStep(s, lastIndex);
    var tail := all[k..];
    assert tail == [m] + SectionMatches(s, m.end);
    assert all[k + 1..] == tail[1..];
  }

  /** Pushing the section built from the `k`-th match extends the prefix of the parsed sections. */
  lemma ParsedStep(s: string, freshId: nat -> string, k: nat, m: SectionMatch, sections: seq<Section>, section: Section)
    requires k < |SectionMatches(s, 0)| && SectionMatches(s, 0)[k] == m
    requires |ParsedSections(s, freshId)| == |SectionMatches(s, 0)|
    requires sections == ParsedSections(s, freshId)[..k]
    requires m.start <= m.end <= |s| && m.typeStart <= m.typeEnd <= |s|
    requires section == SectionOf(Capture(s[m.typeStart..m.typeEnd], s[m.start..m.end]),
                                  ImagesBefore(Captures(s, SectionMatches(s, 0)), k), freshId(k))
    ensures sections + [section] == ParsedSections(s, freshId)[..k + 1]
    ensures ImagesBefore(Captures(s, SectionMatches(s, 0)), k + 1)
      == ImagesBefore(Captures(s, SectionMatches(s, 0)), k) + ImgCount(s[m.start..m.end], 0)
  {
    var cs := Captures(s, SectionMatches(s, 0));
    var ps := ParsedSections(s, freshId);
    assert cs[k] == Capture(s[m.typeStart..m.typeEnd], s[m.start..m.end]);
    assert ps[k] == section;
    PrefixPush(ps, k);
  }

  /** When no match is left, the pushed sections are the parser's result. */
  lemma SectionLoopDone(s: string, freshId: nat -> string, lastIndex: nat, k: nat, sections: seq<Section>, counter: nat)
    requires SectionLoop(s, freshId, lastIndex, k, sections, counter)
    requires NextSection(s, lastIndex).None?
    ensures sections == ParsedSections(s, freshId)
  {
    SectionMatchesStep(s, lastIndex);
    var ps := ParsedSections(s, freshId);
    assert ps[..|ps|] == ps;
  }

  lemma PrefixPush<T>(xs: seq<T>, k: nat)
    requires k < |xs|
    ensures xs[..k + 1] == xs[..k] + [xs[k]]
  {
  }

  /** One iteration's work on a match: its text keys, then its images numbered from `counter`. */
  method BuildSection(sectionType: string, fullHtml: string, id: string, counter: nat)
    returns (section: Section, nextCounter: nat)
    ensures section == SectionOf(Capture(sectionType, fullHtml), counter, id)
    ensures nextCounter == counter + ImgCount(fullHtml, 0)
  {
    var content := CollectTextKeys(fullHtml);
    content, nextCounter := NumberImages(fullHtml, content, OwnKeys(PlaceholderKeys(fullHtml, 0)), counter);
    section := Section(id, sectionType, fullHtml, content);
  }

  /**
   * parseTemplateHTML: the section loop with the text and image loops inside it. Its result is
   * the sequence described by ParsedSections; the lemmas above say what that sequence is.
   */
  method ParseTemplateHtml(htmlContent: string, freshId: nat -> string) returns (sections: seq<Section>)
    ensures sections == ParsedSections(htmlContent, freshId)
  {
    sections := [];
    var imageCounter := 0;
    var lastIndex := 0;
    SectionLoopInit(htmlContent, freshId);
    var m := NextSection(htmlContent, lastIndex);
    while m.Some?
      invariant SectionLoop(htmlContent, freshId, lastIndex, |sections|, sections, imageCounter)
      invariant m == NextSection(htmlContent, lastIndex)
      decreases |htmlContent| - lastIndex
    {
      NextSectionBounds(htmlContent, lastIndex);
      var fullHtml := htmlContent[m.value.start..m.value.end];
      var sectionType := htmlContent[m.value.typeStart..m.value.typeEnd];
      var section, nextCounter := BuildSection(sectionType, fullHtml, freshId(|sections|), imageCounter);
      SectionLoopStep(htmlContent, freshId, lastIndex, |sections|, sections, imageCounter, section, nextCounter);
      sections := sections + [section];
      imageCounter := nextCounter;
      lastIndex := m.value.end;
      m := NextSection(htmlContent, lastIndex);
    }
    SectionLoopDone(htmlContent, freshId, lastIndex, |sections|, sections, imageCounter);
  }
}
