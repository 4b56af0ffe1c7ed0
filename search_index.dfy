/**
 * lib/search-index.ts: the searchable plain-text snippet of an article body
 * (a chain of regular-expression replacements) and the legacy search index.
 */
module SearchIndex {
  import opened Wrappers
  import opened Text
  import opened Articles

  const CONTENT_SNIPPET_LENGTH: nat := 500

  predicate IsHash(c: char) { c == '#' }

  predicate IsEmphasisMark(c: char) { c == '*' || c == '_' }

  predicate IsBacktick(c: char) { c == '`' }

  predicate IsNewline(c: char) { c == '\n' }

  // ---------- /#{1,6}\s+/g -> '' ----------

  /**
   * The end of a match of `#{1,6}\s+` starting at the front of s. The hash
   * run is taken whole: a run longer than six cannot match here (every
   * shorter prefix is followed by another '#'), and its last six are tried
   * again further on.
   */
  function HeadingMarkEnd(s: string): (e: Option<nat>)
    ensures e.Some? ==> 2 <= e.value <= |s| && s[0] == '#'
  {
    var h := |s| - |SkipRun(s, IsHash)|;
    if 1 <= h <= 6 && h < |s| && IsSpace(s[h]) then
      Some(|s| - |SkipRun(s[h..], IsSpace)|)
    else None
  }

  function StripHeadingMarks(s: string): (r: string)
    ensures |r| <= |s|
    ensures forall c :: c in r ==> c in s
    decreases |s|
  {
    if s == [] then []
    else match HeadingMarkEnd(s)
      case Some(e) => StripHeadingMarks(s[e..])
      case None =>
        var rest := StripHeadingMarks(s[1..]);
        assert forall c :: c in [s[0]] + rest ==> c in s;
        [s[0]] + rest
  }

  /** Matches need a '#', so text without one is left alone. */
  lemma {:induction false} StripHeadingMarksNoop(s: string)
    requires '#' !in s
    ensures StripHeadingMarks(s) == s
  {
    if s != [] {
      StripHeadingMarksNoop(s[1..]);
    }
  }

  // ---------- /\[([^\]]+)\]\([^)]+\)/g -> '$1' ----------

  /**
   * A Markdown link `[text](url)` at the front of s: the positions of the
   * closing ']' and ')'. Both classes stop at their first terminator and
   * must be non-empty.
   */
  function LinkAt(s: string): (m: Option<(nat, nat)>)
    ensures m.Some? ==> 1 < m.value.0 && m.value.0 + 2 < m.value.1 < |s|
  {
    if s != [] && s[0] == '[' && ']' in s[1..] then
      var j := 1 + IndexOf(s[1..], ']');
      if j > 1 && j + 1 < |s| && s[j + 1] == '(' && ')' in s[j + 2..] then
        var k := j + 2 + IndexOf(s[j + 2..], ')');
        if k > j + 2 then Some((j, k)) else None
      else None
    else None
  }

  function ReplaceLinks(s: string): (r: string)
    ensures |r| <= |s|
    ensures forall c :: c in r ==> c in s
    decreases |s|
  {
    if s == [] then []
    else match LinkAt(s)
      case Some((j, k)) =>
        var rest := ReplaceLinks(s[k + 1..]);
        assert forall c :: c in s[1..j] ==> c in s;
        s[1..j] + rest
      case None =>
        var rest := ReplaceLinks(s[1..]);
        [s[0]] + rest
  }

  /** `[text](url)` becomes `text`. */
  lemma LinkBecomesText(t: string, u: string, rest: string)
    requires t != "" && ']' !in t && u != "" && ')' !in u
    ensures ReplaceLinks("[" + t + "](" + u + ")" + rest) == t + ReplaceLinks(rest)
  {
    var s := "[" + t + "](" + u + ")" + rest;
    var j := 1 + |t|;
    var k := j + 2 + |u|;
    assert s[0] == '[' && s[j] == ']' && s[j + 1] == '(' && s[k] == ')';
    assert s[1..j] == t && s[j + 2..k] == u && s[k + 1..] == rest;
    LinkAtOf(s, j, k);
  }

  /** A `[`, a non-empty run without `]`, `](`, a non-empty run without `)`, then `)`: the link closes at j and k. */
  lemma LinkAtOf(s: string, j: nat, k: nat)
    requires 1 < j && j + 2 < k < |s| && s[0] == '[' && s[j] == ']' && s[j + 1] == '(' && s[k] == ')'
    requires ']' !in s[1..j] && ')' !in s[j + 2..k]
    ensures LinkAt(s) == Some((j, k))
  {
    var x := s[1..];
    assert x[j - 1] == ']' && x[..j - 1] == s[1..j];
    IndexOfAt(x, ']', j - 1);
    var y := s[j + 2..];
    assert y[k - j - 2] == ')' && y[..k - j - 2] == s[j + 2..k];
    IndexOfAt(y, ')', k - j - 2);
  }

  lemma {:induction false} ReplaceLinksNoop(s: string)
    requires '[' !in s
    ensures ReplaceLinks(s) == s
  {
    if s != [] {
      ReplaceLinksNoop(s[1..]);
    }
  }

  // ---------- toContentSnippet ----------

  /** Steps two to five of the chain: heading marks, emphasis, code ticks and links removed. */
  function Demarked(s: string): (r: string)
    ensures |r| <= |s|
    ensures forall c :: c in r ==> !IsEmphasisMark(c) && !IsBacktick(c)
  {
    var s3 := RemoveChars(RemoveChars(StripHeadingMarks(s), IsEmphasisMark), IsBacktick);
    assert forall c :: c in s3 ==> !IsEmphasisMark(c) && !IsBacktick(c);
    ReplaceLinks(s3)
  }

  /** The last three steps: newline runs and then white-space runs become one space, then `trim`. */
  function Collapsed(s: string): (r: string)
    ensures |r| <= |s|
    ensures forall c :: c in r ==> c == ' ' || (c in s && !IsSpace(c))
    ensures IsTrimmed(r) && NoSpaceRun(r)
  {
    var s6 := ReplaceRuns(ReplaceRuns(s, IsNewline, ' '), IsSpace, ' ');
    TrimIsSlice(s6);
    Trim(s6)
  }

  /** `toContentSnippet(raw)`. */
  function ContentSnippet(raw: string): (r: string)
    ensures |r| <= CONTENT_SNIPPET_LENGTH
    ensures forall c :: c in r ==> !IsEmphasisMark(c) && !IsBacktick(c) && c != '\n'
    ensures IsTrimmed(r) && NoSpaceRun(r)
  {
    var cut := if |raw| <= CONTENT_SNIPPET_LENGTH then raw else raw[..CONTENT_SNIPPET_LENGTH];
    Collapsed(Demarked(cut))
  }

  /** Text that is already plain (no Markdown marks, one-spaced, trimmed) is its own snippet. */
  lemma SnippetOfPlain(s: string)
    requires |s| <= CONTENT_SNIPPET_LENGTH && IsTrimmed(s) && NoSpaceRun(s)
    requires forall i :: 0 <= i < |s| ==> s[i] !in "#*_`[" && (IsSpace(s[i]) ==> s[i] == ' ')
    ensures ContentSnippet(s) == s
  {
    PlainHasNoMarks(s);
    DemarkedOfPlain(s);
    CollapsedOfPlain(s);
  }

  /** The characters a plain text leaves out, one by one. */
  lemma PlainHasNoMarks(s: string)
    requires forall i :: 0 <= i < |s| ==> s[i] !in "#*_`["
    ensures '#' !in s && '[' !in s
    ensures forall i :: 0 <= i < |s| ==> !IsEmphasisMark(s[i]) && !IsBacktick(s[i])
  {
    forall i | 0 <= i < |s|
      ensures s[i] != '#' && s[i] != '[' && !IsEmphasisMark(s[i]) && !IsBacktick(s[i])
    {
      assert "#*_`["[0] == '#' && "#*_`["[1] == '*' && "#*_`["[2] == '_';
      assert "#*_`["[3] == '`' && "#*_`["[4] == '[';
    }
  }

  lemma DemarkedOfPlain(s: string)
    requires '#' !in s && '[' !in s
    requires forall i :: 0 <= i < |s| ==> !IsEmphasisMark(s[i]) && !IsBacktick(s[i])
    ensures Demarked(s) == s
  {
    StripHeadingMarksNoop(s);
    RemoveCharsNoop(s, IsEmphasisMark);
    RemoveCharsNoop(s, IsBacktick);
    ReplaceLinksNoop(s);
  }

  lemma CollapsedOfPlain(s: string)
    requires IsTrimmed(s) && NoSpaceRun(s)
    requires forall i :: 0 <= i < |s| ==> IsSpace(s[i]) ==> s[i] == ' '
    ensures Collapsed(s) == s
  {
    assert forall i :: 0 <= i < |s| ==> !IsNewline(s[i]);
    ReplaceRunsNoop(s, IsNewline, ' ');
    ReplaceRunsOfSingles(s, IsSpace, ' ');
    TrimOfTrimmed(s);
  }

  // ---------- buildSearchIndex ----------

  /** A `SearchIndexItem`. */
  datatype SearchIndexItem = SearchIndexItem(
    slug: string, title: string, excerpt: Option<string>, tags: seq<string>, category: Category)

  /** `buildSearchIndex(articles)`: one record per article, in order, copying its fields. */
  function BuildSearchIndex(articles: seq<Article>): (r: seq<SearchIndexItem>)
    ensures |r| == |articles|
    ensures forall i :: 0 <= i < |r| ==>
              r[i].slug == articles[i].slug && r[i].title == articles[i].title
              && r[i].excerpt == articles[i].excerpt && r[i].tags == articles[i].tags
              && r[i].category == articles[i].category
  {
    seq(|articles|, i requires 0 <= i < |articles| =>
      var a := articles[i];
      SearchIndexItem(a.slug, a.title, a.excerpt, a.tags, a.category))
  }

  /** Indexing a concatenation indexes each part. */
  lemma BuildSearchIndexAppend(xs: seq<Article>, ys: seq<Article>)
    ensures BuildSearchIndex(xs + ys) == BuildSearchIndex(xs) + BuildSearchIndex(ys)
  {
  }
}
