/**
 * app/posts/page.tsx: the posts listing of the LeetCode notes. The `q` and
 * `tags` search parameters narrow the list; every tag of every note is a
 * link that toggles that tag in the filter.
 */
module PostsPage {
  import opened Wrappers
  import opened Text
  import opened Seqs
  import opened LeetCodeService
  import opened LeetCodePage

  // ---------- the two filters ----------

  /** `filterBySearch(notes, q)`: q is trimmed, and a blank q keeps every note. */
  function FilterBySearch(notes: seq<NoteDto>, q: string): seq<NoteDto> {
    if Trim(q) == "" then notes else Filter(notes, n => SearchHit(n, Lower(Trim(q))))
  }

  /** `tags.every((t) => n.tags.includes(t))`. */
  predicate HasAllTags(n: NoteDto, tags: seq<string>) {
    forall i :: 0 <= i < |tags| ==> tags[i] in n.tags
  }

  /** `filterByTags(notes, tags)`. */
  function FilterByTags(notes: seq<NoteDto>, tags: seq<string>): seq<NoteDto> {
    if tags == [] then notes else Filter(notes, n => HasAllTags(n, tags))
  }

  /**
   * A blank query keeps the notes as they are; otherwise exactly the notes
   * whose title, slug or some tag contains the trimmed query, ignoring case,
   * are kept, in their order.
   */
  lemma FilterBySearchMeaning(notes: seq<NoteDto>, q: string)
    ensures IsBlank(q) ==> FilterBySearch(notes, q) == notes
    ensures forall n :: n in FilterBySearch(notes, q) <==> n in notes && (IsBlank(q) || SearchHit(n, Lower(Trim(q))))
    ensures IsSubsequence(FilterBySearch(notes, q), notes)
  {
    TrimEmptyIff(q);
    if Trim(q) == "" {
      SubsequenceOfSelf(notes);
    } else {
      FilterMeaning(notes, n => SearchHit(n, Lower(Trim(q))));
    }
  }

  /** Filtering by tags is filtering by "has every selected tag", which an empty selection always passes. */
  lemma FilterByTagsIsFilter(notes: seq<NoteDto>, tags: seq<string>)
    ensures FilterByTags(notes, tags) == Filter(notes, n => HasAllTags(n, tags))
  {
    if tags == [] {
      FilterAll(notes, n => HasAllTags(n, tags));
    }
  }

  /**
   * An empty selection keeps the notes as they are; otherwise exactly the
   * notes holding every selected tag are kept, in their order.
   */
  lemma FilterByTagsMeaning(notes: seq<NoteDto>, tags: seq<string>)
    ensures tags == [] ==> FilterByTags(notes, tags) == notes
    ensures forall n :: n in FilterByTags(notes, tags) <==> n in notes && HasAllTags(n, tags)
    ensures IsSubsequence(FilterByTags(notes, tags), notes)
  {
    FilterByTagsIsFilter(notes, tags);
    FilterMeaning(notes, n => HasAllTags(n, tags));
  }

  /** The search filter as a plain filter. */
  lemma FilterBySearchIsFilter(notes: seq<NoteDto>, q: string)
    ensures FilterBySearch(notes, q) == Filter(notes, n => Trim(q) == "" || SearchHit(n, Lower(Trim(q))))
  {
    if Trim(q) == "" {
      FilterAll(notes, n => Trim(q) == "" || SearchHit(n, Lower(Trim(q))));
    } else {
      FilterSame(notes, n => SearchHit(n, Lower(Trim(q))), n => Trim(q) == "" || SearchHit(n, Lower(Trim(q))));
    }
  }

  /** The two filters commute. */
  lemma FiltersCommute(notes: seq<NoteDto>, q: string, tags: seq<string>)
    ensures FilterByTags(FilterBySearch(notes, q), tags) == FilterBySearch(FilterByTags(notes, tags), q)
  {
    var p := n => Trim(q) == "" || SearchHit(n, Lower(Trim(q)));
    var t := n => HasAllTags(n, tags);
    FilterBySearchIsFilter(notes, q);
    FilterByTagsIsFilter(Filter(notes, p), tags);
    FilterByTagsIsFilter(notes, tags);
    FilterBySearchIsFilter(Filter(notes, t), q);
    FilterCommute(notes, p, t);
  }

  // ---------- the page ----------

  /** What the page lists: the notes hitting the trimmed `q` and holding every parsed tag. */
  function Listed(notes: seq<NoteDto>, qParam: Option<string>, tagsParam: Option<string>): seq<NoteDto> {
    FilterByTags(FilterBySearch(notes, Trim(qParam.GetOr(""))), ParseNames(tagsParam))
  }

  /** The list is an order-preserving selection of the notes, holding exactly those that pass both filters. */
  lemma ListedMeaning(notes: seq<NoteDto>, qParam: Option<string>, tagsParam: Option<string>)
    ensures var q := Trim(qParam.GetOr(""));
            var tags := ParseNames(tagsParam);
            IsSubsequence(Listed(notes, qParam, tagsParam), notes)
            && forall n :: n in Listed(notes, qParam, tagsParam) <==>
                             n in notes && (q == "" || SearchHit(n, Lower(q))) && HasAllTags(n, tags)
  {
    var q := Trim(qParam.GetOr(""));
    var tags := ParseNames(tagsParam);
    var found := FilterBySearch(notes, q);
    FilterBySearchMeaning(notes, q);
    FilterByTagsMeaning(found, tags);
    SubsequenceTrans(FilterByTags(found, tags), found, notes);
    TrimIdempotent(qParam.GetOr(""));
    TrimEmptyIff(q);
  }

  // ---------- the tag links ----------

  /** The query of a tag link: `tags` only when some tag stays selected, `q` only when non-empty. */
  function TagLinkPairs(tags: seq<string>, q: string, tag: string): (ps: seq<(string, string)>)
    ensures Param(ps, "tags").Some? <==> Toggled(tags, tag) != []
    ensures Param(ps, "tags").Some? ==> Param(ps, "tags").value == Join(Toggled(tags, tag), ',')
    ensures Param(ps, "q").Some? <==> q != ""
    ensures Param(ps, "q").Some? ==> Param(ps, "q").value == q
  {
    var next := Toggled(tags, tag);
    var t := if next != [] then [("tags", Join(next, ','))] else [];
    var u := if q != "" then [("q", q)] else [];
    assert "tags"[0] != "q"[0];
    ParamAfter(t, u, "q");
    assert next != [] ==> (t + u)[0] == ("tags", Join(next, ','));
    assert next == [] ==> t + u == u;
    t + u
  }

  /** Reading a key the first part does not hold. */
  lemma {:induction false} ParamAfter(t: seq<(string, string)>, u: seq<(string, string)>, key: string)
    requires forall i :: 0 <= i < |t| ==> t[i].0 != key
    ensures Param(t + u, key) == Param(u, key)
    decreases |t|
  {
    if t != [] {
      assert (t + u)[0] == t[0] && t[0].0 != key;
      assert (t + u)[1..] == t[1..] + u;
      assert forall i :: 0 <= i < |t[1..]| ==> t[1..][i] == t[i + 1];
      ParamAfter(t[1..], u, key);
    } else {
      assert t + u == u;
    }
  }

  /** The href of a tag link. */
  function TagHref(tags: seq<string>, q: string, tag: string): (r: string)
    ensures r == "/posts" <==> TagLinkPairs(tags, q, tag) == []
  {
    var ps := TagLinkPairs(tags, q, tag);
    if ps == [] then "/posts" else "/posts?" + JoinPairs(ps)
  }

  /**
   * Following a tag link toggles the tag and keeps the query: the page reads
   * the selection back as the toggled list and the query unchanged.
   */
  lemma TagLinkRoundTrip(tags: seq<string>, q: string, tag: string)
    requires CleanNames(tags) && CleanNames([tag]) && IsTrimmed(q)
    ensures var ps := TagLinkPairs(tags, q, tag);
            ParseNames(Param(ps, "tags")) == Toggled(tags, tag)
            && Trim(Param(ps, "q").GetOr("")) == q
  {
    var next := Toggled(tags, tag);
    forall i | 0 <= i < |next|
      ensures next[i] != "" && IsTrimmed(next[i]) && ',' !in next[i]
    {
      assert next[i] in next;
      ToggledMembers(tags, tag, next[i]);
      if next[i] != tag {
        var k :| 0 <= k < |tags| && tags[k] == next[i];
      } else {
        assert [tag][0] == tag;
      }
    }
    if next != [] {
      ParseJoinedNames(next);
    }
    TrimOfTrimmed(q);
  }
}
