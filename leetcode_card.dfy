/**
 * components/leetcode/LeetCodeCard.tsx: one note of the LeetCode list. The
 * card shows at most four tags with a "+k" for the rest, and every tag or
 * source on it links to the list with that name added to the current
 * filter.
 */
module LeetCodeCard {
  import opened Wrappers
  import opened Text
  import opened LeetCodeService
  import opened LeetCodePage

  /** `MAX_TAGS_VISIBLE`. */
  const MaxTagsVisible: nat := 4

  /** `CardQuery`: the filter the list page is showing. */
  datatype CardQuery = CardQuery(tags: seq<string>, sources: seq<string>, mode: FilterMode, difficulty: Option<Difficulty>)

  // ---------- visible and omitted tags ----------

  /** `note.tags.slice(0, MAX_TAGS_VISIBLE)`: the first min(4, n) tags. */
  function VisibleTags(tags: seq<string>): (r: seq<string>)
    ensures |r| == if |tags| <= MaxTagsVisible then |tags| else MaxTagsVisible
    ensures r == tags[..|r|]
  {
    if |tags| <= MaxTagsVisible then tags else tags[..MaxTagsVisible]
  }

  /** The "+k" label: shown only past four tags, counting the tags not shown. */
  function OmittedLabel(tags: seq<string>): (r: Option<nat>)
    ensures r.Some? <==> |tags| > MaxTagsVisible
    ensures r.Some? ==> r.value == |tags| - MaxTagsVisible && |VisibleTags(tags)| + r.value == |tags|
  {
    var omitted := |tags| - MaxTagsVisible;
    if omitted > 0 then Some(omitted) else None
  }

  // ---------- extending the filter ----------

  /** `xs.includes(x) ? xs : [...xs, x]`. */
  function Extended(xs: seq<string>, x: string): (r: seq<string>)
    ensures x in r
    ensures |xs| <= |r| && r[..|xs|] == xs
    ensures x in xs ==> r == xs
    ensures x !in xs ==> r == xs + [x]
  {
    if x in xs then xs else xs + [x]
  }

  /** Extending keeps every name, adds only the new one, and a second extension changes nothing. */
  lemma ExtendedMeaning(xs: seq<string>, x: string)
    ensures forall y :: y in Extended(xs, x) <==> y in xs || y == x
    ensures Extended(Extended(xs, x), x) == Extended(xs, x)
  {
  }

  /** The overrides of a tag link: the filter with the tag added, mode and difficulty kept. */
  function TagLinkParams(listParams: ListParams, current: CardQuery, tag: string): (p: ListParams)
    ensures p.tags == Some(Extended(current.tags, tag))
    ensures p.sources == Some(current.sources) && p.mode == Some(current.mode) && p.difficulty == current.difficulty
    ensures p.q == listParams.q && p.sort == listParams.sort && p.order == listParams.order
  {
    var next := Extended(current.tags, tag);
    listParams.(tags := if |next| > 0 then Some(next) else None, sources := Some(current.sources),
                mode := Some(current.mode), difficulty := current.difficulty)
  }

  /** The overrides of a source link: the filter with the source added, mode and difficulty kept. */
  function SourceLinkParams(listParams: ListParams, current: CardQuery, source: string): (p: ListParams)
    ensures p.sources == Some(Extended(current.sources, source))
    ensures p.tags == Some(current.tags)
    ensures p.mode == Some(current.mode) && p.difficulty == current.difficulty
    ensures p.q == listParams.q && p.sort == listParams.sort && p.order == listParams.order
  {
    var next := Extended(current.sources, source);
    listParams.(tags := Some(current.tags), sources := if |next| > 0 then Some(next) else None,
                mode := Some(current.mode), difficulty := current.difficulty)
  }

  /** `tagHref(tag)`. */
  function TagHref(baseUrl: string, listParams: ListParams, current: CardQuery, tag: string): string {
    baseUrl + BuildLeetCodeListQuery(TagLinkParams(listParams, current, tag))
  }

  /** `sourceHref(source)`. */
  function SourceHref(baseUrl: string, listParams: ListParams, current: CardQuery, source: string): string {
    baseUrl + BuildLeetCodeListQuery(SourceLinkParams(listParams, current, source))
  }

  /** `currentQuery` (app/leetcode/page.tsx): the page's own filter. */
  function CardQueryOf(r: Parsed): CardQuery {
    CardQuery(r.tags, r.sources, r.mode, r.difficulty)
  }

  lemma ExtendedClean(xs: seq<string>, x: string)
    requires CleanNames(xs) && CleanNames([x])
    ensures CleanNames(Extended(xs, x))
  {
    if x !in xs {
      assert [x][0] == x;
      forall i | 0 <= i < |xs + [x]|
        ensures (xs + [x])[i] != "" && IsTrimmed((xs + [x])[i]) && ',' !in (xs + [x])[i]
      {
        if i < |xs| {
          assert (xs + [x])[i] == xs[i];
        }
      }
    }
  }

  /**
   * Following a tag link of a card on the list page: the page reads back
   * its own parameters with the tag added to the selected tags.
   */
  lemma TagLinkRoundTrip(r: Parsed, tag: string)
    requires CleanNames(r.tags) && CleanNames(r.sources) && IsTrimmed(r.q) && CleanNames([tag])
    ensures ParseListParams(SearchParamsOf(ListQueryPairs(TagLinkParams(ListParamsOf(r), CardQueryOf(r), tag))))
            == r.(tags := Extended(r.tags, tag))
  {
    ExtendedClean(r.tags, tag);
    QueryRoundTrip(TagLinkParams(ListParamsOf(r), CardQueryOf(r), tag));
    TrimOfTrimmed(r.q);
  }

  /**
   * Following a source link of a card on the list page: the page reads
   * back its own parameters with the source added to the selected sources.
   */
  lemma SourceLinkRoundTrip(r: Parsed, source: string)
    requires CleanNames(r.tags) && CleanNames(r.sources) && IsTrimmed(r.q) && CleanNames([source])
    ensures ParseListParams(SearchParamsOf(ListQueryPairs(SourceLinkParams(ListParamsOf(r), CardQueryOf(r), source))))
            == r.(sources := Extended(r.sources, source))
  {
    ExtendedClean(r.sources, source);
    QueryRoundTrip(SourceLinkParams(ListParamsOf(r), CardQueryOf(r), source));
    TrimOfTrimmed(r.q);
  }
}
