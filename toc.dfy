/**
 * lib/toc.ts: the table of contents of a Markdown body. ATX-style headings
 * are found with the multiline expression `^(#{1,6})\s+(.+)$`, their text is
 * trimmed and stripped of a closing run of `#`, and each gets a slug id.
 */
module Toc {
  import opened Wrappers
  import opened Text

  // ---------- slugify ----------

  /** `一-龥`: the CJK unified ideographs the slug keeps. */
  predicate IsCjk(c: char) {
    '\U{4E00}' <= c <= '\U{9FA5}'
  }

  /** `[a-z0-9一-龥-]`. */
  predicate IsSlugChar(c: char) {
    IsLowerAlpha(c) || IsDigit(c) || IsCjk(c) || c == '-'
  }

  predicate IsDash(c: char) { c == '-' }

  predicate AllSlugChars(s: string) {
    forall i :: 0 <= i < |s| ==> IsSlugChar(s[i])
  }

  /** No "--" in s. */
  predicate NoDoubleDash(s: string) {
    forall i :: 0 <= i < |s| - 1 ==> !(s[i] == '-' && s[i + 1] == '-')
  }

  /** A slug: non-empty, over `[a-z0-9一-龥-]`, no "--", no dash at either end. */
  predicate IsSlug(s: string) {
    |s| > 0 && s[0] != '-' && s[|s| - 1] != '-' && AllSlugChars(s) && NoDoubleDash(s)
  }

  lemma SliceKeepsSlugFacts(s: string, i: int, j: int)
    requires 0 <= i <= j <= |s| && AllSlugChars(s) && NoDoubleDash(s)
    ensures AllSlugChars(s[i..j]) && NoDoubleDash(s[i..j])
  {
    var t := s[i..j];
    forall k | 0 <= k < |t| - 1
      ensures !(t[k] == '-' && t[k + 1] == '-')
    {
      assert t[k] == s[i + k] && t[k + 1] == s[i + k + 1];
    }
  }

  /** Trimmed, lower-cased, white-space runs made dashes, other characters dropped. */
  function SlugChars(text: string): (r: string)
    ensures AllSlugChars(r)
  {
    RemoveChars(ReplaceRuns(Lower(Trim(text)), IsSpace, '-'), c => !IsSlugChar(c))
  }

  /** `.replace(/-+/g, '-')` on top of SlugChars. */
  function Dashed(text: string): (r: string)
    ensures AllSlugChars(r) && NoDoubleDash(r)
  {
    var s := SlugChars(text);
    var r := ReplaceRuns(s, IsDash, '-');
    assert AllSlugChars(r) by {
      forall i | 0 <= i < |r|
        ensures IsSlugChar(r[i])
      {
        assert r[i] in r;
      }
    }
    r
  }

  /** `.replace(/^-|-$/g, '')`: one leading and one trailing dash removed. */
  function DropEndDashes(s: string): (r: string)
    requires AllSlugChars(s) && NoDoubleDash(s)
    ensures AllSlugChars(r) && NoDoubleDash(r)
    ensures r == [] || (r[0] != '-' && r[|r| - 1] != '-')
    ensures s == [] ==> r == []
  {
    var i := if |s| > 0 && s[0] == '-' then 1 else 0;
    var j := if |s| > i && s[|s| - 1] == '-' then |s| - 1 else |s|;
    SliceKeepsSlugFacts(s, i, j);
    if |s| >= 2 then
      assert !(s[0] == '-' && s[1] == '-');
      assert !(s[|s| - 2] == '-' && s[|s| - 1] == '-');
      s[i..j]
    else s[i..j]
  }

  /** Dashed, then the end dashes dropped. */
  function SlugBody(text: string): (r: string)
    ensures AllSlugChars(r) && NoDoubleDash(r)
    ensures r == [] || (r[0] != '-' && r[|r| - 1] != '-')
  {
    DropEndDashes(Dashed(text))
  }

  /** `slugify(text)` of lib/toc.ts, with the fallback "heading". */
  function Slugify(text: string): (r: string)
    ensures IsSlug(r)
  {
    var body := SlugBody(text);
    if body == [] then
      FallbackIsSlug();
      "heading"
    else body
  }

  /** The fallback id is a slug. */
  lemma FallbackIsSlug()
    ensures IsSlug("heading")
  {
    assert forall i :: 0 <= i < |"heading"| ==> IsLowerAlpha("heading"[i]);
    LowerWordIsSlug("heading");
  }

  /** A word of lower-case letters is a slug. */
  lemma LowerWordIsSlug(w: string)
    requires w != [] && forall i :: 0 <= i < |w| ==> IsLowerAlpha(w[i])
    ensures IsSlug(w)
  {
    assert !IsLowerAlpha('-');
  }

  /** A slug is its own slug, so `slugify` is idempotent. */
  lemma SlugOfSlug(s: string)
    requires IsSlug(s)
    ensures Slugify(s) == s
  {
    SlugCharsOfSlug(s);
    DashedOfSlug(s);
    SlugOfDashed(s);
  }

  lemma SlugOfDashed(s: string)
    requires Dashed(s) == s && s != [] && s[0] != '-' && s[|s| - 1] != '-'
    ensures Slugify(s) == s
  {
    assert s[0..|s|] == s;
  }

  lemma DashedOfSlug(s: string)
    requires SlugChars(s) == s && NoDoubleDash(s)
    ensures Dashed(s) == s
  {
    ReplaceRunsOfSingles(s, IsDash, '-');
  }

  lemma SlugCharsOfSlug(s: string)
    requires IsSlug(s)
    ensures SlugChars(s) == s
  {
    assert forall i :: 0 <= i < |s| ==> !IsSpace(s[i]) by {
      forall i | 0 <= i < |s|
        ensures !IsSpace(s[i])
      {
        assert IsSlugChar(s[i]);
      }
    }
    TrimOfTrimmed(s);
    assert Lower(s) == s by {
      forall i | 0 <= i < |s|
        ensures Lower(s)[i] == s[i]
      {
        LowerAt(s, i);
        assert IsSlugChar(s[i]);
      }
    }
    ReplaceRunsNoop(s, IsSpace, '-');
    RemoveCharsNoop(s, c => !IsSlugChar(c));
  }

  lemma SlugifyIdempotent(text: string)
    ensures Slugify(Slugify(text)) == Slugify(text)
  {
    SlugOfSlug(Slugify(text));
  }

  // ---------- the heading expression ----------

  /** `^` in multiline mode: the start of the input or just after a line terminator. */
  predicate IsLineStart(s: string, p: int) {
    p == 0 || (0 < p <= |s| && IsLineTerminator(s[p - 1]))
  }

  /** End of the run of characters satisfying pr from j. */
  function RunFrom(s: string, j: nat, pr: char -> bool): (e: nat)
    requires j <= |s|
    ensures j <= e <= |s|
    ensures forall k :: j <= k < e ==> pr(s[k])
    ensures e == |s| || !pr(s[e])
    decreases |s| - j
  {
    if j == |s| || !pr(s[j]) then j else RunFrom(s, j + 1, pr)
  }

  predicate NotLineTerminator(c: char) { !IsLineTerminator(c) }

  /** The largest t with lo <= t < hi whose character `.` can match. */
  function LastDotChar(s: string, lo: nat, hi: nat): (t: Option<nat>)
    requires hi <= |s|
    ensures t.Some? ==> lo <= t.value < hi && !IsLineTerminator(s[t.value])
    ensures t.Some? ==> forall k :: t.value < k < hi ==> IsLineTerminator(s[k])
    ensures t.None? ==> forall k :: lo <= k < hi ==> IsLineTerminator(s[k])
    decreases hi
  {
    if hi <= lo then None
    else if !IsLineTerminator(s[hi - 1]) then Some(hi - 1)
    else LastDotChar(s, lo, hi - 1)
  }

  /** A match: the hash count and the span of the `(.+)` group. */
  datatype HeadingMatch = HeadingMatch(depth: nat, textStart: nat, textEnd: nat)

  /**
   * `(#{1,6})\s+(.+)$` at position p. A hash run longer than six cannot
   * match. `\s+` is greedy and may cross line ends; when it runs to the end
   * of the input it gives back characters until `.+` can take one.
   */
  function HeadingAt(s: string, p: nat): (m: Option<HeadingMatch>)
    requires p <= |s|
    ensures m.Some? ==> 1 <= m.value.depth <= 6 && p + m.value.depth < m.value.textStart < m.value.textEnd <= |s|
    ensures m.Some? ==> forall k :: p <= k < p + m.value.depth ==> s[k] == '#'
    ensures m.Some? ==> forall k :: p + m.value.depth <= k < m.value.textStart ==> IsSpace(s[k])
    ensures m.Some? ==> forall k :: m.value.textStart <= k < m.value.textEnd ==> !IsLineTerminator(s[k])
    ensures m.Some? ==> m.value.textEnd == |s| || IsLineTerminator(s[m.value.textEnd])
  {
    var q := RunFrom(s, p, c => c == '#');
    var h := q - p;
    if h < 1 || h > 6 || q >= |s| || !IsSpace(s[q]) then None
    else
      var w := RunFrom(s, q, IsSpace);
      if w < |s| then
        assert !IsSpace(s[w]);
        Some(HeadingMatch(h, w, RunFrom(s, w, NotLineTerminator)))
      else
        match LastDotChar(s, q + 1, |s|)
        case None => None
        case Some(t) => Some(HeadingMatch(h, t, RunFrom(s, t, NotLineTerminator)))
  }

  /** No line start in [from, to) begins a match. */
  predicate NoHeadingIn(s: string, from: nat, to: nat) {
    forall p :: from <= p < to && p <= |s| && IsLineStart(s, p) ==> HeadingAt(s, p).None?
  }

  /** `HEADING_REGEX.exec(content)` from `lastIndex == from`: the leftmost match. */
  function FindHeading(s: string, from: nat): (r: Option<(nat, HeadingMatch)>)
    ensures r.Some? ==> from <= r.value.0 <= |s| && IsLineStart(s, r.value.0)
                        && HeadingAt(s, r.value.0) == Some(r.value.1)
    decreases |s| - from
  {
    if from > |s| then None
    else if IsLineStart(s, from) && HeadingAt(s, from).Some? then Some((from, HeadingAt(s, from).value))
    else if from == |s| then None
    else FindHeading(s, from + 1)
  }

  /** The match found is the leftmost one: no line start before it begins a match. */
  lemma {:induction false} FindHeadingLeftmost(s: string, from: nat)
    ensures var r := FindHeading(s, from);
            NoHeadingIn(s, from, if r.None? then |s| + 1 else r.value.0)
    decreases |s| - from
  {
    if from <= |s| && !(IsLineStart(s, from) && HeadingAt(s, from).Some?) && from < |s| {
      FindHeadingLeftmost(s, from + 1);
    }
  }

  // ---------- the entry text ----------

  /** `t.replace(/#+\s*$/, '')`: a final run of `#`, with the white space after it, removed. */
  function StripClosingHashes(t: string): (r: string)
    ensures |r| <= |t| && r == t[..|r|]
  {
    var u := TrimEnd(t);
    var k := |u| - RunBack(u);
    if k == 0 then t else u[..|u| - k]
  }

  /** The start of the trailing run of `#` of u. */
  function RunBack(u: string): (b: nat)
    ensures b <= |u|
    ensures forall k :: b <= k < |u| ==> u[k] == '#'
    ensures b == 0 || u[b - 1] != '#'
  {
    if u == [] || u[|u| - 1] != '#' then |u| else RunBack(u[..|u| - 1])
  }

  /** `m[2].trim().replace(/#+\s*$/, '').trim()`. */
  function HeadingText(raw: string): (r: string)
    ensures IsTrimmed(r)
  {
    Trim(StripClosingHashes(Trim(raw)))
  }

  /**
   * Before the last trim the text has no trailing `#`: the whole final run is
   * removed. A `#` that white space separates from that run stays, so the
   * text can still end in `#`.
   */
  lemma NoTrailingHashBeforeTrim(raw: string)
    ensures var u := StripClosingHashes(Trim(raw));
            (u == [] || u[|u| - 1] != '#') && HeadingText(raw) == Trim(u)
  {
    StripLeavesNoHash(Trim(raw));
  }

  /** On a trimmed text, the closing run goes entirely. */
  lemma StripLeavesNoHash(t: string)
    requires IsTrimmed(t)
    ensures var u := StripClosingHashes(t);
            u == [] || u[|u| - 1] != '#'
  {
    if |t| > 0 && t[|t| - 1] == '#' {
      ClosingRunRemoved(t);
      var b := RunBack(t);
      if b > 0 {
        assert t[..b][b - 1] == t[b - 1];
      }
    } else {
      NoClosingRunKept(t);
    }
  }

  lemma NoClosingRunKept(t: string)
    requires IsTrimmed(t) && (|t| == 0 || t[|t| - 1] != '#')
    ensures StripClosingHashes(t) == t
  {
    assert TrimEnd(t) == t;
    assert RunBack(t) == |t|;
  }

  /** k copies of `#`. */
  function Hashes(k: nat): (r: string)
    ensures |r| == k && forall i :: 0 <= i < k ==> r[i] == '#'
  {
    seq(k, _ => '#')
  }

  lemma {:induction false} RunBackOfHashes(x: string, k: nat)
    requires x == [] || x[|x| - 1] != '#'
    ensures RunBack(x + Hashes(k)) == |x|
    decreases k
  {
    var t := x + Hashes(k);
    if k == 0 {
      assert t == x;
    } else {
      assert t[|t| - 1] == '#';
      assert t[..|t| - 1] == x + Hashes(k - 1);
      RunBackOfHashes(x, k - 1);
    }
  }

  lemma {:induction false} TrimEndOfSpaces(w: string, sp: string)
    requires w == [] || !IsSpace(w[|w| - 1])
    requires forall i :: 0 <= i < |sp| ==> IsSpace(sp[i])
    ensures TrimEnd(w + sp) == w
    decreases |sp|
  {
    var t := w + sp;
    if sp == [] {
      assert t == w;
    } else {
      assert IsSpace(t[|t| - 1]);
      assert t[..|t| - 1] == w + sp[..|sp| - 1];
      TrimEndOfSpaces(w, sp[..|sp| - 1]);
    }
  }

  /**
   * A closing run of `#` goes, with the white space before it: the text is
   * what comes before. When white space separates it from the run, a `#`
   * at the end of that text stays, so "a# #" gives "a#".
   */
  lemma ClosingRunOf(w: string, sp: string, k: nat)
    requires w != [] && IsTrimmed(w) && k >= 1
    requires forall i :: 0 <= i < |sp| ==> IsSpace(sp[i])
    requires sp != [] || w[|w| - 1] != '#'
    ensures HeadingText(w + sp + Hashes(k)) == w
  {
    var x := w + sp;
    var t := x + Hashes(k);
    assert t[0] == w[0] && t[|t| - 1] == '#';
    TrimOfTrimmed(t);
    assert TrimEnd(t) == t;
    assert x[|x| - 1] == if sp != [] then sp[|sp| - 1] else w[|w| - 1];
    RunBackOfHashes(x, k);
    assert t[..|x|] == x;
    assert StripClosingHashes(t) == x;
    assert x[0] == w[0];
    assert TrimStart(x) == x;
    TrimEndOfSpaces(w, sp);
  }

  /** Only the final run of `#` goes: "a# #" gives "a#". */
  lemma TrailingHashExample()
    ensures HeadingText("a# #") == "a#"
  {
    var w := "a#";
    assert IsTrimmed(w);
    assert IsSpace(" "[0]);
    ClosingRunOf(w, " ", 1);
    assert w + " " + Hashes(1) == "a# #";
  }

  /** A trimmed text ending in `#` loses its whole final `#` run, and only it. */
  lemma ClosingRunRemoved(t: string)
    requires IsTrimmed(t) && |t| > 0 && t[|t| - 1] == '#'
    ensures StripClosingHashes(t) == t[..RunBack(t)]
  {
    TrimOfTrimmed(t);
    assert TrimEnd(t) == t;
  }

  /** A text without a trailing `#` is kept as it is. */
  lemma NoClosingRun(t: string)
    requires IsTrimmed(t) && (|t| == 0 || t[|t| - 1] != '#')
    ensures HeadingText(t) == t
  {
    TrimOfTrimmed(t);
    assert TrimEnd(t) == t;
  }

  // ---------- extractToc ----------

  /** A `TocItem`. */
  datatype TocItem = TocItem(id: string, text: string, depth: nat)

  function ItemOf(s: string, m: HeadingMatch): TocItem
    requires m.textStart <= m.textEnd <= |s|
  {
    var text := HeadingText(s[m.textStart..m.textEnd]);
    TocItem(Slugify(text), text, m.depth)
  }

  /** The successive matches of the `exec` loop from `lastIndex == from` on. */
  function Matches(s: string, from: nat): (r: seq<HeadingMatch>)
    ensures InBounds(s, r)
    ensures forall k :: 0 <= k < |r| ==> 1 <= r[k].depth <= 6
    decreases |s| - from
  {
    match FindHeading(s, from)
    case None => []
    case Some((p, m)) =>
      var rest := Matches(s, m.textEnd);
      ConsMatch(s, m, rest);
      [m] + rest
  }

  lemma ConsMatch(s: string, m: HeadingMatch, rest: seq<HeadingMatch>)
    requires 1 <= m.depth <= 6 && m.textStart <= m.textEnd <= |s|
    requires InBounds(s, rest) && forall k :: 0 <= k < |rest| ==> 1 <= rest[k].depth <= 6
    ensures InBounds(s, [m] + rest) && forall k :: 0 <= k < |[m] + rest| ==> 1 <= ([m] + rest)[k].depth <= 6
  {
    forall k | 0 <= k < |[m] + rest|
      ensures ([m] + rest)[k] == if k == 0 then m else rest[k - 1]
    {
    }
  }

  /** Every match lies within s. */
  predicate InBounds(s: string, ms: seq<HeadingMatch>) {
    forall k :: 0 <= k < |ms| ==> ms[k].textStart <= ms[k].textEnd <= |s|
  }

  /** The entries of the matches ms, in order. */
  function ItemsOf(s: string, ms: seq<HeadingMatch>): (r: seq<TocItem>)
    requires InBounds(s, ms)
    ensures |r| == |ms|
  {
    if ms == [] then [] else ItemsOf(s, ms[..|ms| - 1]) + [ItemOf(s, ms[|ms| - 1])]
  }

  lemma {:induction false} ItemsOfAt(s: string, ms: seq<HeadingMatch>, k: nat)
    requires InBounds(s, ms) && k < |ms|
    ensures ItemsOf(s, ms)[k] == ItemOf(s, ms[k])
  {
    if k < |ms| - 1 {
      assert InBounds(s, ms[..|ms| - 1]);
      ItemsOfAt(s, ms[..|ms| - 1], k);
    }
  }

  /** The table of contents: one entry per match, in order. */
  function Entries(s: string): (r: seq<TocItem>)
    ensures |r| == |Matches(s, 0)|
  {
    ItemsOf(s, Matches(s, 0))
  }

  predicate WellFormed(e: TocItem) {
    1 <= e.depth <= 6 && IsTrimmed(e.text) && e.id == Slugify(e.text)
  }

  /** Every entry has a depth from 1 to 6, a trimmed text and the slug of that text as its id. */
  lemma EntriesWellFormed(s: string)
    ensures forall e :: e in Entries(s) ==> WellFormed(e) && IsSlug(e.id)
  {
    var r := Entries(s);
    forall e | e in r
      ensures WellFormed(e) && IsSlug(e.id)
    {
      var k :| 0 <= k < |r| && r[k] == e;
      ItemsOfAt(s, Matches(s, 0), k);
    }
  }

  lemma MatchesStep(s: string, from: nat, done: seq<HeadingMatch>)
    requires FindHeading(s, from).Some?
    requires done + Matches(s, from) == Matches(s, 0)
    ensures var m := FindHeading(s, from).value.1;
            from < m.textEnd <= |s| && (done + [m]) + Matches(s, m.textEnd) == Matches(s, 0)
  {
    var m := FindHeading(s, from).value.1;
    var rest := Matches(s, m.textEnd);
    assert Matches(s, from) == [m] + rest;
    assert (done + [m]) + rest == done + ([m] + rest);
  }

  /** One more entry: ItemsOf grows by the entry of the new match. */
  lemma ItemsOfSnoc(s: string, ms: seq<HeadingMatch>, m: HeadingMatch)
    requires InBounds(s, ms) && m.textStart <= m.textEnd <= |s|
    ensures InBounds(s, ms + [m]) && ItemsOf(s, ms + [m]) == ItemsOf(s, ms) + [ItemOf(s, m)]
  {
    assert (ms + [m])[..|ms|] == ms;
  }

  /** `extractToc(content)`: the `exec` loop pushing one entry per match. */
  method ExtractToc(content: string) returns (toc: seq<TocItem>)
    ensures toc == Entries(content)
  {
    toc := [];
    var lastIndex := 0;
    ghost var done: seq<HeadingMatch> := [];
    var m := FindHeading(content, lastIndex);
    while m.Some?
      invariant lastIndex <= |content|
      invariant m == FindHeading(content, lastIndex)
      invariant done + Matches(content, lastIndex) == Matches(content, 0)
      invariant InBounds(content, done) && toc == ItemsOf(content, done)
      decreases |content| - lastIndex
    {
      var hm := m.value.1;
      MatchesStep(content, lastIndex, done);
      var text := HeadingText(content[hm.textStart..hm.textEnd]);
      var id := Slugify(text);
      ItemsOfSnoc(content, done, hm);
      toc := toc + [TocItem(id, text, hm.depth)];
      done := done + [hm];
      lastIndex := hm.textEnd;
      m := FindHeading(content, lastIndex);
    }
    assert done == Matches(content, 0);
  }

  /** A heading needs white space after its hashes, and at most six of them. */
  lemma NotHeadings()
    ensures HeadingAt("#Foo", 0).None?
    ensures HeadingAt("####### x", 0).None?
  {
    assert RunFrom("#Foo", 1, c => c == '#') == 1;
    assert RunFrom("#Foo", 0, c => c == '#') == 1;
    var s := "####### x";
    assert RunFrom(s, 7, c => c == '#') == 7;
    assert RunFrom(s, 0, c => c == '#') == 7;
  }

  /** A match starting in [from, p) runs past p (its `\s+` crossed line ends). */
  predicate Overlapped(s: string, from: nat, p: nat) {
    exists r :: from <= r < p && IsLineStart(s, r) && HeadingAt(s, r).Some? && HeadingAt(s, r).value.textEnd > p
  }

  /**
   * Every line start at which the expression matches gives a match of the
   * loop, unless an earlier match already ran past it; fenced code is not
   * skipped.
   */
  lemma {:induction false} MatchesComplete(s: string, from: nat, p: nat)
    requires from <= p <= |s| && IsLineStart(s, p) && HeadingAt(s, p).Some?
    requires !Overlapped(s, from, p)
    ensures HeadingAt(s, p).value in Matches(s, from)
    decreases |s| - from
  {
    var r := FindHeading(s, from);
    FindHeadingLeftmost(s, from);
    assert r.Some?;
    var q, m := r.value.0, r.value.1;
    assert Matches(s, from) == [m] + Matches(s, m.textEnd);
    if q != p {
      assert q < p;
      assert m.textEnd <= p;
      MatchesComplete(s, m.textEnd, p);
    }
  }

  /** Hence such a line has its entry in the table of contents. */
  lemma EntriesComplete(s: string, p: nat)
    requires p <= |s| && IsLineStart(s, p) && HeadingAt(s, p).Some?
    requires !Overlapped(s, 0, p)
    ensures ItemOf(s, HeadingAt(s, p).value) in Entries(s)
  {
    MatchesComplete(s, 0, p);
    var ms := Matches(s, 0);
    var k :| 0 <= k < |ms| && ms[k] == HeadingAt(s, p).value;
    ItemsOfAt(s, ms, k);
  }
}
