/**
 * app/posts/PostsWithSearch.tsx: the searchable posts list. Fuzzy search
 * itself is a parameter (the results Fuse.js returns); what is modelled is
 * what the component does around it: the unmatched listing of a blank
 * query, the selected-tag filter and its toggle, the tag universe, looking
 * up a match by key, and cutting a text into highlighted and plain parts.
 */
module PostsWithSearch {
  import opened Wrappers
  import opened Text
  import opened Seqs
  import opened StrOrder
  import opened Dates

  /** A record of `/search-index.json`. */
  datatype SearchRecord = SearchRecord(slug: string, title: string, summary: string, tags: seq<string>, contentSnippet: string)

  /** The key of a Fuse match: a field name or a path of names. */
  datatype MatchKey = KeyName(name: string) | KeyPath(path: seq<string>)

  /** One Fuse match: the key it is for, when given, and its inclusive index pairs, when given. */
  datatype FuseMatch = FuseMatch(key: Option<MatchKey>, indices: Option<seq<(int, int)>>)

  /** A search result: the record and its matches (`null` when the query is blank). */
  datatype SearchResult = SearchResult(item: SearchRecord, matches: Option<seq<FuseMatch>>)

  /** A piece of the highlighted text: `text.slice(start, end)`, marked when `match` holds. */
  datatype Part = Part(start: int, end: int, marked: bool)

  /** The `formatDate` argument: nothing, a string, or a `Date`. */
  datatype DateValue = NoDate | DateText(text: string) | DateObject(at: Instant)

  // ---------- formatDate ----------

  /** `formatDate(d)`: empty for nothing, a string as it is, a `Date` as its ISO calendar date. */
  function FormatDate(d: DateValue): (r: string)
    ensures d.NoDate? ==> r == ""
    ensures d.DateText? ==> r == d.text
    ensures d.DateObject? ==> |r| == 10
    ensures d.DateObject? ==> r == IsoDate10(d.at.utc)
  {
    match d
    case NoDate => ""
    case DateText(s) => s
    case DateObject(at) => IsoDate10(at.utc)
  }

  // ---------- the highlight partition ----------

  /** Fuse's pairs as the component uses them: in order, disjoint, inclusive and inside the text. */
  predicate WellFormed(indices: seq<(int, int)>, len: int) {
    (forall k :: 0 <= k < |indices| ==> 0 <= indices[k].0 <= indices[k].1 < len)
    && (forall k :: 0 <= k < |indices| - 1 ==> indices[k].1 < indices[k + 1].0)
  }

  /** The parts are non-empty and lie end to end, from lo to hi. */
  predicate Tiles(parts: seq<Part>, lo: int, hi: int)
    decreases |parts|
  {
    if parts == [] then lo == hi
    else
      var p := parts[|parts| - 1];
      p.start < p.end && p.end == hi && Tiles(parts[..|parts| - 1], lo, p.start)
  }

  /** The spans of the marked parts, in order. */
  function Marked(parts: seq<Part>): seq<(int, int)>
    decreases |parts|
  {
    if parts == [] then []
    else
      var p := parts[|parts| - 1];
      Marked(parts[..|parts| - 1]) + (if p.marked then [(p.start, p.end)] else [])
  }

  /** The half-open spans of the inclusive pairs. */
  function Spans(indices: seq<(int, int)>): (r: seq<(int, int)>)
    ensures |r| == |indices|
    ensures forall k :: 0 <= k < |r| ==> r[k] == (indices[k].0, indices[k].1 + 1)
  {
    seq(|indices|, k requires 0 <= k < |indices| => (indices[k].0, indices[k].1 + 1))
  }

  /** The text the parts show, one after another. */
  function Shown(text: string, parts: seq<Part>): string
    decreases |parts|
  {
    if parts == [] then ""
    else
      var p := parts[|parts| - 1];
      Shown(text, parts[..|parts| - 1]) + (if 0 <= p.start <= p.end <= |text| then text[p.start..p.end] else "")
  }

  lemma TilesSnoc(parts: seq<Part>, lo: int, mid: int, p: Part)
    requires Tiles(parts, lo, mid) && p.start == mid && p.start < p.end
    ensures Tiles(parts + [p], lo, p.end)
    ensures Marked(parts + [p]) == Marked(parts) + (if p.marked then [(p.start, p.end)] else [])
  {
    assert (parts + [p])[..|parts|] == parts;
  }

  /** Parts that tile lo..hi of the text show exactly that stretch of it. */
  lemma {:induction false} TilesShow(text: string, parts: seq<Part>, lo: int, hi: int)
    requires 0 <= lo && hi <= |text| && Tiles(parts, lo, hi)
    ensures lo <= hi && Shown(text, parts) == text[lo..hi]
    decreases |parts|
  {
    if parts != [] {
      var p := parts[|parts| - 1];
      TilesShow(text, parts[..|parts| - 1], lo, p.start);
      assert text[lo..p.start] + text[p.start..hi] == text[lo..hi];
    }
  }

  /** One pair of the loop: a plain part for the gap before it, when there is one, then its marked part. */
  lemma HighlightStep(parts: seq<Part>, lastEnd: int, from: int, to: int)
    requires Tiles(parts, 0, lastEnd) && lastEnd <= from <= to
    ensures var gap := if from > lastEnd then parts + [Part(lastEnd, from, false)] else parts;
            Tiles(gap + [Part(from, to + 1, true)], 0, to + 1)
            && Marked(gap + [Part(from, to + 1, true)]) == Marked(parts) + [(from, to + 1)]
  {
    var gap := if from > lastEnd then parts + [Part(lastEnd, from, false)] else parts;
    if from > lastEnd {
      TilesSnoc(parts, 0, lastEnd, Part(lastEnd, from, false));
    }
    TilesSnoc(gap, 0, from, Part(from, to + 1, true));
  }

  lemma SpansSnoc(indices: seq<(int, int)>, k: int)
    requires 0 <= k < |indices|
    ensures Spans(indices[..k + 1]) == Spans(indices[..k]) + [(indices[k].0, indices[k].1 + 1)]
  {
  }

  /**
   * The partition loop of `HighlightSnippet`. Without pairs the whole text
   * is one plain part. With well-formed pairs the parts are non-empty, lie
   * end to end over the whole text and show it exactly, and the marked ones
   * are exactly the spans [from, to + 1) of the pairs, in order.
   */
  method HighlightParts(text: string, indices: seq<(int, int)>) returns (parts: seq<Part>)
    ensures indices == [] ==> parts == [Part(0, |text|, false)]
    ensures WellFormed(indices, |text|) && indices != [] ==>
              Tiles(parts, 0, |text|) && Marked(parts) == Spans(indices) && Shown(text, parts) == text
  {
    if indices == [] {
      return [Part(0, |text|, false)];
    }
    ghost var wf := WellFormed(indices, |text|);
    parts := [];
    var lastEnd := 0;
    var k := 0;
    while k < |indices|
      invariant 0 <= k <= |indices|
      invariant wf ==> Tiles(parts, 0, lastEnd) && Marked(parts) == Spans(indices[..k])
      invariant wf ==> lastEnd == if k == 0 then 0 else indices[k - 1].1 + 1
    {
      var from, to := indices[k].0, indices[k].1;
      var end := to + 1;
      if wf {
        assert k > 0 ==> indices[k - 1].1 < indices[k].0;
        HighlightStep(parts, lastEnd, from, to);
        SpansSnoc(indices, k);
      }
      if from > lastEnd {
        parts := parts + [Part(lastEnd, from, false)];
      }
      parts := parts + [Part(from, end, true)];
      lastEnd := end;
      k := k + 1;
    }
    assert indices[..k] == indices;
    if wf && lastEnd < |text| {
      TilesSnoc(parts, 0, lastEnd, Part(lastEnd, |text|, false));
    }
    if lastEnd < |text| {
      parts := parts + [Part(lastEnd, |text|, false)];
    }
    if wf {
      TilesShow(text, parts, 0, |text|);
    }
  }

  // ---------- getMatchForKey ----------

  /** The key a match is compared by: a path is joined with ".". */
  function KeyOf(m: FuseMatch): Option<string> {
    match m.key
    case None => None
    case Some(KeyName(n)) => Some(n)
    case Some(KeyPath(p)) => Some(Join(p, '.'))
  }

  /** m[i] is the first match with the key. */
  predicate FirstWithKey(ms: seq<FuseMatch>, key: string, i: int) {
    0 <= i < |ms| && KeyOf(ms[i]) == Some(key) && forall j :: 0 <= j < i ==> KeyOf(ms[j]) != Some(key)
  }

  /** `matches.find(...)`: the position of the first match with the key, or |ms| when none has it. */
  function FindKey(ms: seq<FuseMatch>, key: string): (i: nat)
    ensures i <= |ms|
    ensures i < |ms| ==> FirstWithKey(ms, key, i)
    ensures i == |ms| ==> forall j :: 0 <= j < |ms| ==> KeyOf(ms[j]) != Some(key)
  {
    if ms == [] then 0
    else if KeyOf(ms[0]) == Some(key) then 0
    else
      var i := FindKey(ms[1..], key);
      assert forall j :: 1 <= j < |ms| ==> ms[j] == ms[1..][j - 1];
      i + 1
  }

  /**
   * `getMatchForKey(matches, key)`: the pairs of the first match with the
   * key; nothing when there are no matches, no match has the key, or the
   * first that has it carries no pairs.
   */
  function GetMatchForKey(matches: Option<seq<FuseMatch>>, key: string): (r: Option<seq<(int, int)>>)
    ensures r.Some? <==> matches.Some? && exists i :: FirstWithKey(matches.value, key, i) && matches.value[i].indices.Some?
    ensures forall i :: matches.Some? && FirstWithKey(matches.value, key, i) ==> r == matches.value[i].indices
  {
    if matches.None? then None
    else
      var ms := matches.value;
      var i := FindKey(ms, key);
      assert forall j :: FirstWithKey(ms, key, j) ==> j == i;
      if i < |ms| then ms[i].indices else None
  }

  // ---------- results, the tag filter, the toggle and the tag universe ----------

  /**
   * `rawResults`: a blank query lists every record unmatched, in index
   * order; otherwise the fuzzy search's results.
   */
  function RawResults(index: seq<SearchRecord>, query: string, searched: seq<SearchResult>): (r: seq<SearchResult>)
    ensures IsBlank(query) ==> |r| == |index| && forall i :: 0 <= i < |r| ==> r[i] == SearchResult(index[i], None)
    ensures !IsBlank(query) ==> r == searched
  {
    TrimEmptyIff(query);
    if Trim(query) == "" then seq(|index|, i requires 0 <= i < |index| => SearchResult(index[i], None))
    else searched
  }

  /** `selectedTags.every((t) => item.tags.includes(t))`. */
  predicate HasSelected(r: SearchResult, selected: seq<string>) {
    forall i :: 0 <= i < |selected| ==> selected[i] in r.item.tags
  }

  /** `searchResults`. */
  function SearchResults(raw: seq<SearchResult>, selected: seq<string>): seq<SearchResult> {
    if selected == [] then raw else Filter(raw, r => HasSelected(r, selected))
  }

  /**
   * The tag filter keeps, in order, exactly the results holding every
   * selected tag; an empty selection keeps everything.
   */
  lemma SearchResultsMeaning(raw: seq<SearchResult>, selected: seq<string>)
    ensures selected == [] ==> SearchResults(raw, selected) == raw
    ensures forall r :: r in SearchResults(raw, selected) <==> r in raw && HasSelected(r, selected)
    ensures IsSubsequence(SearchResults(raw, selected), raw)
  {
    if selected == [] {
      FilterAll(raw, r => HasSelected(r, selected));
    }
    FilterMeaning(raw, r => HasSelected(r, selected));
  }

  /** Removing a value keeps the others in their order. */
  lemma {:induction false} RemoveSubsequence(xs: seq<string>, v: string)
    ensures IsSubsequence(Remove(xs, v), xs)
  {
    if xs != [] {
      RemoveSubsequence(xs[1..], v);
      if xs[0] != v {
        assert ([xs[0]] + Remove(xs[1..], v))[1..] == Remove(xs[1..], v);
      } else {
        assert Remove(xs, v) == Remove(xs[1..], v);
      }
    }
  }

  /**
   * `toggleTag(tag)`: a selected tag is removed and the others keep their
   * order; an unselected one is appended; toggling it again restores the
   * selection.
   */
  lemma ToggleTagMeaning(prev: seq<string>, tag: string)
    ensures tag in prev ==> tag !in Toggled(prev, tag) && IsSubsequence(Toggled(prev, tag), prev)
                            && forall x :: x != tag ==> (x in Toggled(prev, tag) <==> x in prev)
    ensures tag !in prev ==> Toggled(prev, tag) == prev + [tag] && Toggled(Toggled(prev, tag), tag) == prev
  {
    if tag in prev {
      RemoveSubsequence(prev, tag);
      forall x | x != tag
        ensures x in Toggled(prev, tag) <==> x in prev
      {
        ToggledMembers(prev, tag, x);
      }
    } else {
      ToggleTwice(prev, tag);
    }
  }

  /** `allTags`: every tag of the index, once each, sorted. */
  function AllTags(index: seq<SearchRecord>): seq<string> {
    SortedUnique(Flatten(seq(|index|, i requires 0 <= i < |index| => index[i].tags)))
  }

  /** The tag universe is strictly increasing and holds exactly the tags of some record. */
  lemma AllTagsMeaning(index: seq<SearchRecord>, x: string)
    ensures StrictlySorted(AllTags(index))
    ensures x in AllTags(index) <==> exists i :: 0 <= i < |index| && x in index[i].tags
  {
    var xss := seq(|index|, i requires 0 <= i < |index| => index[i].tags);
    if exists i :: 0 <= i < |index| && x in index[i].tags {
      var i :| 0 <= i < |index| && x in index[i].tags;
      var k :| 0 <= k < |xss[i]| && xss[i][k] == x;
    }
  }
}
