/**
 * The LeetCode list page (app/leetcode/page.tsx): reading the URL
 * parameters, the search box filter, the sort of the fetched notes, the
 * facet universes and the links the page builds back to itself.
 */
module LeetCodePage {
  import opened Wrappers
  import opened Text
  import opened Seqs
  import opened StrOrder
  import opened LeetCodeService

  /** The raw `searchParams`: each one absent or a string. */
  datatype SearchParams = SearchParams(
    tags: Option<string>, sources: Option<string>, mode: Option<string>,
    difficulty: Option<string>, q: Option<string>, sort: Option<string>, order: Option<string>)

  /** What `parseListParams` returns. */
  datatype Parsed = Parsed(
    tags: seq<string>, sources: seq<string>, mode: FilterMode,
    difficulty: Option<Difficulty>, q: string, sort: SortKey, order: SortOrder)

  // ---------- parseListParams ----------

  /** Names a list parameter may carry back unchanged: non-empty, trimmed, without a comma. */
  predicate CleanNames(ns: seq<string>) {
    forall i :: 0 <= i < |ns| ==> ns[i] != "" && IsTrimmed(ns[i]) && ',' !in ns[i]
  }

  /** `s ? s.split(',').map(t => t.trim()).filter(Boolean) : []`. */
  function ParseNames(s: Option<string>): (r: seq<string>)
    ensures CleanNames(r)
  {
    if s.Some? && s.value != "" then
      var parts := Split(s.value, ',');
      var r := NormalizeNames(parts);
      assert forall i :: 0 <= i < |r| ==> ',' !in r[i] by {
        forall i | 0 <= i < |r|
          ensures ',' !in r[i]
        {
          NormalizeNamesMembers(parts, r[i]);
          var k :| 0 <= k < |parts| && Trim(parts[k]) == r[i];
        }
      }
      r
    else []
  }

  function ParseMode(s: Option<string>): FilterMode {
    if s == Some("or") then Or else And
  }

  function ParseDifficulty(s: Option<string>): Option<Difficulty> {
    if s.Some? then DifficultyFromName(s.value) else None
  }

  function ParseSort(s: Option<string>): SortKey {
    if s == Some("createdAt") then CreatedAt else if s == Some("title") then Title else UpdatedAt
  }

  function ParseOrder(s: Option<string>): SortOrder {
    if s == Some("asc") then Asc else Desc
  }

  function ParseListParams(sp: SearchParams): (r: Parsed)
    ensures CleanNames(r.tags) && CleanNames(r.sources) && IsTrimmed(r.q)
  {
    Parsed(ParseNames(sp.tags), ParseNames(sp.sources), ParseMode(sp.mode),
           ParseDifficulty(sp.difficulty), Trim(sp.q.GetOr("")), ParseSort(sp.sort), ParseOrder(sp.order))
  }

  /** Each enumerated parameter reads back the name it was written with, and only that name. */
  lemma ParseNamesOfEnums(m: FilterMode, d: Difficulty, k: SortKey, o: SortOrder, s: Option<string>)
    ensures ParseMode(Some(ModeName(m))) == m
    ensures ParseDifficulty(Some(DifficultyName(d))) == Some(d)
    ensures ParseDifficulty(s) == Some(d) <==> s == Some(DifficultyName(d))
    ensures ParseSort(Some(SortName(k))) == k
    ensures ParseOrder(Some(OrderName(o))) == o
    ensures ParseMode(s) == Or <==> s == Some("or")
    ensures ParseOrder(s) == Asc <==> s == Some("asc")
  {
    DifficultyNameRoundTrip(d);
    assert "createdAt"[0] != "title"[0];
    assert "updatedAt"[0] != "createdAt"[0] && "updatedAt"[0] != "title"[0];
    assert "and"[0] != "or"[0] && "desc"[0] != "asc"[0];
  }

  /** Reading a joined list of clean names gives back the names. */
  lemma ParseJoinedNames(ns: seq<string>)
    requires CleanNames(ns) && ns != []
    ensures ParseNames(Some(Join(ns, ','))) == ns
  {
    SplitJoin(ns, ',');
    NormalizeNamesOfNormal(ns);
    assert Join(ns, ',') != "" by {
      JoinNonEmpty(ns);
    }
  }

  lemma {:induction false} JoinNonEmpty(ns: seq<string>)
    requires ns != [] && ns[0] != ""
    ensures Join(ns, ',') != ""
  {
    if |ns| > 1 {
      assert |Join(ns, ',')| >= |ns[0]|;
    }
  }

  // ---------- the query string, read back ----------

  /** The parameters a query names, as `searchParams.get(key)` gives each one. */
  function SearchParamsOf(ps: seq<(string, string)>): SearchParams {
    SearchParams(Param(ps, "tags"), Param(ps, "sources"), Param(ps, "mode"), Param(ps, "difficulty"),
                 Param(ps, "q"), Param(ps, "sort"), Param(ps, "order"))
  }

  /** Reading a key past one optional pair. */
  lemma ParamSetIf(c: bool, k: string, v: string, rest: seq<(string, string)>, key: string)
    ensures Param(SetIf(c, k, v) + rest, key) == if c && k == key then Some(v) else Param(rest, key)
  {
    if c {
      assert (SetIf(c, k, v) + rest)[0] == (k, v);
      assert (SetIf(c, k, v) + rest)[1..] == rest;
    } else {
      assert SetIf(c, k, v) + rest == rest;
    }
  }

  /** The seven keys, pairwise different. */
  lemma KeysDistinct()
    ensures "tags" != "sources" && "tags" != "mode" && "tags" != "difficulty" && "tags" != "q"
    ensures "tags" != "sort" && "tags" != "order"
    ensures "sources" != "mode" && "sources" != "difficulty" && "sources" != "q"
    ensures "sources" != "sort" && "sources" != "order"
    ensures "mode" != "difficulty" && "mode" != "q" && "mode" != "sort" && "mode" != "order"
    ensures "difficulty" != "q" && "difficulty" != "sort" && "difficulty" != "order"
    ensures "q" != "sort" && "q" != "order" && "sort" != "order"
  {
    assert "tags"[0] != "sources"[0] && "tags"[0] != "mode"[0] && "tags"[0] != "difficulty"[0];
    assert "tags"[0] != "sort"[0] && "tags"[0] != "order"[0] && "sources"[2] != "sort"[2];
    assert "sources"[0] != "mode"[0] && "sources"[0] != "difficulty"[0] && "sources"[0] != "order"[0];
    assert "mode"[0] != "difficulty"[0] && "mode"[0] != "sort"[0] && "mode"[0] != "order"[0];
    assert "difficulty"[0] != "sort"[0] && "difficulty"[0] != "order"[0] && "sort"[0] != "order"[0];
  }

  /** Any key read from the seven optional pairs: the value of the first pair with that key. */
  lemma ParamOfPairs7(key: string, ct: bool, vt: string, cs: bool, vs: string, cm: bool, vm: string, cd: bool, vd: string,
                      cq: bool, vq: string, cso: bool, vso: string, co: bool, vo: string)
    ensures Param(Pairs7(ct, vt, cs, vs, cm, vm, cd, vd, cq, vq, cso, vso, co, vo), key)
            == if ct && "tags" == key then Some(vt)
               else if cs && "sources" == key then Some(vs)
               else if cm && "mode" == key then Some(vm)
               else if cd && "difficulty" == key then Some(vd)
               else if cq && "q" == key then Some(vq)
               else if cso && "sort" == key then Some(vso)
               else if co && "order" == key then Some(vo)
               else None
  {
    var r6 := SetIf(co, "order", vo);
    var r5 := SetIf(cso, "sort", vso) + r6;
    var r4 := SetIf(cq, "q", vq) + r5;
    var r3 := SetIf(cd, "difficulty", vd) + r4;
    var r2 := SetIf(cm, "mode", vm) + r3;
    var r1 := SetIf(cs, "sources", vs) + r2;
    ParamSetIf(ct, "tags", vt, r1, key);
    ParamSetIf(cs, "sources", vs, r2, key);
    ParamSetIf(cm, "mode", vm, r3, key);
    ParamSetIf(cd, "difficulty", vd, r4, key);
    ParamSetIf(cq, "q", vq, r5, key);
    ParamSetIf(cso, "sort", vso, r6, key);
    ParamSetIf(co, "order", vo, [], key);
    assert r6 + [] == r6;
  }

  /** Each key of the seven reads back its own value when set. */
  lemma Pairs7Params(ct: bool, vt: string, cs: bool, vs: string, cm: bool, vm: string, cd: bool, vd: string,
                     cq: bool, vq: string, cso: bool, vso: string, co: bool, vo: string)
    ensures var ps := Pairs7(ct, vt, cs, vs, cm, vm, cd, vd, cq, vq, cso, vso, co, vo);
      && Param(ps, "tags") == (if ct then Some(vt) else None)
      && Param(ps, "sources") == (if cs then Some(vs) else None)
      && Param(ps, "mode") == (if cm then Some(vm) else None)
      && Param(ps, "difficulty") == (if cd then Some(vd) else None)
      && Param(ps, "q") == (if cq then Some(vq) else None)
      && Param(ps, "sort") == (if cso then Some(vso) else None)
      && Param(ps, "order") == (if co then Some(vo) else None)
  {
    KeysDistinct();
    ParamOfPairs7("tags", ct, vt, cs, vs, cm, vm, cd, vd, cq, vq, cso, vso, co, vo);
    ParamOfPairs7("sources", ct, vt, cs, vs, cm, vm, cd, vd, cq, vq, cso, vso, co, vo);
    ParamOfPairs7("mode", ct, vt, cs, vs, cm, vm, cd, vd, cq, vq, cso, vso, co, vo);
    ParamOfPairs7("difficulty", ct, vt, cs, vs, cm, vm, cd, vd, cq, vq, cso, vso, co, vo);
    ParamOfPairs7("q", ct, vt, cs, vs, cm, vm, cd, vd, cq, vq, cso, vso, co, vo);
    ParamOfPairs7("sort", ct, vt, cs, vs, cm, vm, cd, vd, cq, vq, cso, vso, co, vo);
    ParamOfPairs7("order", ct, vt, cs, vs, cm, vm, cd, vd, cq, vq, cso, vso, co, vo);
  }

  /** `tags` reads back the comma-joined tags, when there are any. */
  lemma QueryTags(p: ListParams)
    ensures Param(ListQueryPairs(p), "tags") == (if p.tags.Some? && |p.tags.value| > 0 then Some(Join(p.tags.value, ',')) else None)
  {
    Pairs7Params(
      p.tags.Some? && |p.tags.value| > 0, TagsText(p),
      p.sources.Some? && |p.sources.value| > 0, SourcesText(p),
      p.mode.Some?, ModeText(p), p.difficulty.Some?, DifficultyText(p),
      p.q.Some? && !IsBlank(p.q.value), SearchText(p),
      p.sort.Some?, SortText(p), p.order.Some?, OrderText(p));
  }

  /** `sources` reads back the comma-joined sources, when there are any. */
  lemma QuerySources(p: ListParams)
    ensures Param(ListQueryPairs(p), "sources") == (if p.sources.Some? && |p.sources.value| > 0 then Some(Join(p.sources.value, ',')) else None)
  {
    Pairs7Params(
      p.tags.Some? && |p.tags.value| > 0, TagsText(p),
      p.sources.Some? && |p.sources.value| > 0, SourcesText(p),
      p.mode.Some?, ModeText(p), p.difficulty.Some?, DifficultyText(p),
      p.q.Some? && !IsBlank(p.q.value), SearchText(p),
      p.sort.Some?, SortText(p), p.order.Some?, OrderText(p));
  }

  /** `mode` reads back the mode's name, when set. */
  lemma QueryMode(p: ListParams)
    ensures Param(ListQueryPairs(p), "mode") == (if p.mode.Some? then Some(ModeName(p.mode.value)) else None)
  {
    Pairs7Params(
      p.tags.Some? && |p.tags.value| > 0, TagsText(p),
      p.sources.Some? && |p.sources.value| > 0, SourcesText(p),
      p.mode.Some?, ModeText(p), p.difficulty.Some?, DifficultyText(p),
      p.q.Some? && !IsBlank(p.q.value), SearchText(p),
      p.sort.Some?, SortText(p), p.order.Some?, OrderText(p));
  }

  /** `difficulty` reads back the difficulty's name, when set. */
  lemma QueryDifficulty(p: ListParams)
    ensures Param(ListQueryPairs(p), "difficulty") == (if p.difficulty.Some? then Some(DifficultyName(p.difficulty.value)) else None)
  {
    Pairs7Params(
      p.tags.Some? && |p.tags.value| > 0, TagsText(p),
      p.sources.Some? && |p.sources.value| > 0, SourcesText(p),
      p.mode.Some?, ModeText(p), p.difficulty.Some?, DifficultyText(p),
      p.q.Some? && !IsBlank(p.q.value), SearchText(p),
      p.sort.Some?, SortText(p), p.order.Some?, OrderText(p));
  }

  /** `q` reads back the trimmed search text, when not blank. */
  lemma QuerySearch(p: ListParams)
    ensures Param(ListQueryPairs(p), "q") == (if p.q.Some? && !IsBlank(p.q.value) then Some(Trim(p.q.value)) else None)
  {
    Pairs7Params(
      p.tags.Some? && |p.tags.value| > 0, TagsText(p),
      p.sources.Some? && |p.sources.value| > 0, SourcesText(p),
      p.mode.Some?, ModeText(p), p.difficulty.Some?, DifficultyText(p),
      p.q.Some? && !IsBlank(p.q.value), SearchText(p),
      p.sort.Some?, SortText(p), p.order.Some?, OrderText(p));
  }

  /** `sort` reads back the sort key's name, when set. */
  lemma QuerySort(p: ListParams)
    ensures Param(ListQueryPairs(p), "sort") == (if p.sort.Some? then Some(SortName(p.sort.value)) else None)
  {
    Pairs7Params(
      p.tags.Some? && |p.tags.value| > 0, TagsText(p),
      p.sources.Some? && |p.sources.value| > 0, SourcesText(p),
      p.mode.Some?, ModeText(p), p.difficulty.Some?, DifficultyText(p),
      p.q.Some? && !IsBlank(p.q.value), SearchText(p),
      p.sort.Some?, SortText(p), p.order.Some?, OrderText(p));
  }

  /** `order` reads back the order's name, when set. */
  lemma QueryOrder(p: ListParams)
    ensures Param(ListQueryPairs(p), "order") == (if p.order.Some? then Some(OrderName(p.order.value)) else None)
  {
    Pairs7Params(
      p.tags.Some? && |p.tags.value| > 0, TagsText(p),
      p.sources.Some? && |p.sources.value| > 0, SourcesText(p),
      p.mode.Some?, ModeText(p), p.difficulty.Some?, DifficultyText(p),
      p.q.Some? && !IsBlank(p.q.value), SearchText(p),
      p.sort.Some?, SortText(p), p.order.Some?, OrderText(p));
  }

  /** Each of the seven keys reads back the value the query builder set for it, and is absent when it set none. */
  lemma QueryParams(p: ListParams)
    ensures var ps := ListQueryPairs(p);
      && Param(ps, "tags") == (if p.tags.Some? && |p.tags.value| > 0 then Some(Join(p.tags.value, ',')) else None)
      && Param(ps, "sources") == (if p.sources.Some? && |p.sources.value| > 0 then Some(Join(p.sources.value, ',')) else None)
      && Param(ps, "mode") == (if p.mode.Some? then Some(ModeName(p.mode.value)) else None)
      && Param(ps, "difficulty") == (if p.difficulty.Some? then Some(DifficultyName(p.difficulty.value)) else None)
      && Param(ps, "q") == (if p.q.Some? && !IsBlank(p.q.value) then Some(Trim(p.q.value)) else None)
      && Param(ps, "sort") == (if p.sort.Some? then Some(SortName(p.sort.value)) else None)
      && Param(ps, "order") == (if p.order.Some? then Some(OrderName(p.order.value)) else None)
  {
    QueryTags(p);
    QuerySources(p);
    QueryMode(p);
    QueryDifficulty(p);
    QuerySearch(p);
    QuerySort(p);
    QueryOrder(p);
  }

  lemma TagsRoundTrip(p: ListParams)
    requires p.tags.Some? ==> CleanNames(p.tags.value)
    ensures ParseNames(Param(ListQueryPairs(p), "tags")) == p.tags.GetOr([])
  {
    QueryParams(p);
    if p.tags.Some? && |p.tags.value| > 0 {
      ParseJoinedNames(p.tags.value);
    }
  }

  lemma SourcesRoundTrip(p: ListParams)
    requires p.sources.Some? ==> CleanNames(p.sources.value)
    ensures ParseNames(Param(ListQueryPairs(p), "sources")) == p.sources.GetOr([])
  {
    QueryParams(p);
    if p.sources.Some? && |p.sources.value| > 0 {
      ParseJoinedNames(p.sources.value);
    }
  }

  lemma EnumsRoundTrip(p: ListParams)
    ensures var ps := ListQueryPairs(p);
      && ParseMode(Param(ps, "mode")) == p.mode.GetOr(And)
      && ParseDifficulty(Param(ps, "difficulty")) == p.difficulty
      && ParseSort(Param(ps, "sort")) == p.sort.GetOr(UpdatedAt)
      && ParseOrder(Param(ps, "order")) == p.order.GetOr(Desc)
  {
    QueryParams(p);
    ParseNamesOfEnums(p.mode.GetOr(And), p.difficulty.GetOr(EASY), p.sort.GetOr(UpdatedAt), p.order.GetOr(Desc), None);
  }

  lemma QRoundTrip(p: ListParams)
    ensures Trim(Param(ListQueryPairs(p), "q").GetOr("")) == Trim(p.q.GetOr(""))
  {
    QueryParams(p);
    if p.q.Some? {
      TrimIdempotent(p.q.value);
    }
  }

  /**
   * A query built from p and read back by the page gives p's fields, and
   * the defaults for the fields p leaves out. Names must be clean for the
   * split on ',' to give them back.
   */
  lemma QueryRoundTrip(p: ListParams)
    requires p.tags.Some? ==> CleanNames(p.tags.value)
    requires p.sources.Some? ==> CleanNames(p.sources.value)
    ensures ParseListParams(SearchParamsOf(ListQueryPairs(p)))
            == Parsed(p.tags.GetOr([]), p.sources.GetOr([]), p.mode.GetOr(And), p.difficulty,
                      Trim(p.q.GetOr("")), p.sort.GetOr(UpdatedAt), p.order.GetOr(Desc))
  {
    TagsRoundTrip(p);
    SourcesRoundTrip(p);
    EnumsRoundTrip(p);
    QRoundTrip(p);
  }

  /** `listParams` (line 105): what the page links carry before any override. */
  function ListParamsOf(r: Parsed): ListParams {
    ListParams(Some(r.tags), Some(r.sources), Some(r.mode), r.difficulty,
               if r.q != "" then Some(r.q) else None, Some(r.sort), Some(r.order))
  }

  /** A link the page builds without overrides reads back as the page's own parameters. */
  lemma SelfLinkRoundTrip(r: Parsed)
    requires CleanNames(r.tags) && CleanNames(r.sources) && IsTrimmed(r.q)
    ensures ParseListParams(SearchParamsOf(ListQueryPairs(ListParamsOf(r)))) == r
  {
    var p := ListParamsOf(r);
    QueryRoundTrip(p);
    var q := p.q.GetOr("");
    assert q == r.q;
    TrimOfTrimmed(q);
  }

  // ---------- what the page asks the service for ----------

  /** The filters of the second fetch: one parsed mode for both facets. */
  function PageFilters(r: Parsed): (f: Filters)
    ensures f.tagsMode == f.sourcesMode == Some(r.mode)
  {
    Filters(r.difficulty,
            if |r.tags| > 0 then Some(r.tags) else None, Some(r.mode),
            if |r.sources| > 0 then Some(r.sources) else None, Some(r.mode))
  }

  /** A name list is satisfied by a note's links in the given mode. */
  predicate NamesOk(names: seq<string>, mode: FilterMode, have: seq<string>) {
    if mode == And then forall i :: 0 <= i < |names| ==> names[i] in have
    else names == [] || exists i :: 0 <= i < |names| && names[i] in have
  }

  /**
   * The notes the page lists before the search box: LEETCODE notes with the
   * chosen difficulty whose tags and sources both satisfy the one mode.
   */
  lemma PageFiltersMeaning(r: Parsed, row: FullRow)
    requires CleanNames(r.tags) && CleanNames(r.sources)
    ensures Eval(BuildListWhere(PageFilters(r)), row)
            <==> (row.post.kind == LeetCodeType
                  && (r.difficulty.Some? ==> row.meta.Some? && row.meta.value.difficulty == r.difficulty.value)
                  && NamesOk(r.tags, r.mode, row.tagNames)
                  && NamesOk(r.sources, r.mode, row.sourceNames))
  {
    var f := PageFilters(r);
    BuildListWhereMeaning(f, row);
    CleanFacet(r.tags, r.mode, row.tagNames);
    CleanFacet(r.sources, r.mode, row.sourceNames);
  }

  lemma CleanFacet(names: seq<string>, mode: FilterMode, have: seq<string>)
    requires CleanNames(names)
    ensures FacetOk(if |names| > 0 then Some(names) else None, Some(mode), have) <==> NamesOk(names, mode, have)
  {
    NormalizeNamesOfNormal(names);
    forall x
      ensures Wanted(names, x) <==> x in names
    {
      NormalizedMember(names, x);
    }
    if mode == Or {
      NormalizeNamesEmpty(names);
      if names != [] {
        assert !IsBlank(names[0]);
        if exists i :: 0 <= i < |names| && names[i] in have {
          var i :| 0 <= i < |names| && names[i] in have;
          assert Wanted(names, names[i]);
        }
      }
    } else {
      if forall i :: 0 <= i < |names| ==> names[i] in have {
        forall x | Wanted(names, x)
          ensures x in have
        {
          var i :| 0 <= i < |names| && names[i] == x;
        }
      }
    }
  }

  // ---------- filterBySearch ----------

  /** The lower-cased title, slug or some lower-cased tag contains `lower`. */
  predicate SearchHit(n: NoteDto, lower: string) {
    Contains(Lower(n.title), lower) || Contains(Lower(n.slug), lower)
    || exists i :: 0 <= i < |n.tags| && Contains(Lower(n.tags[i]), lower)
  }

  function FilterBySearch(notes: seq<NoteDto>, q: string): seq<NoteDto> {
    if q == "" then notes else Filter(notes, n => SearchHit(n, Lower(q)))
  }

  /**
   * An empty query keeps every note; otherwise the result is the notes that
   * hit the lower-cased query, in their order.
   */
  lemma FilterBySearchMeaning(notes: seq<NoteDto>, q: string)
    ensures q == "" ==> FilterBySearch(notes, q) == notes
    ensures forall n :: n in FilterBySearch(notes, q) <==> n in notes && (q == "" || SearchHit(n, Lower(q)))
    ensures IsSubsequence(FilterBySearch(notes, q), notes)
  {
    if q == "" {
      SubsequenceOfSelf(notes);
    } else {
      FilterMeaning(notes, n => SearchHit(n, Lower(q)));
    }
  }

  lemma {:induction false} SubsequenceOfSelf<T>(xs: seq<T>)
    ensures IsSubsequence(xs, xs)
  {
    if xs != [] {
      SubsequenceOfSelf(xs[1..]);
    }
  }

  // ---------- sortNotes ----------

  /** `localeCompare`, taken as the code-unit order of the titles. */
  function TitleCompare(a: string, b: string): int {
    if Less(a, b) then -1 else if a == b then 0 else 1
  }

  /** The comparator of `arr.sort`: `mult * difference`. */
  function Compare(a: NoteDto, b: NoteDto, sort: SortKey, order: SortOrder): int {
    var diff :=
      if sort == Title then TitleCompare(a.title, b.title)
      else if sort == CreatedAt then a.createdAt.ms - b.createdAt.ms
      else a.updatedAt.ms - b.updatedAt.ms;
    if order == Asc then diff else -diff
  }

  /** Neighbouring notes are in order for the comparator. */
  predicate SortedBy(xs: seq<NoteDto>, sort: SortKey, order: SortOrder) {
    forall k :: 0 < k < |xs| ==> Compare(xs[k - 1], xs[k], sort, order) <= 0
  }

  lemma CompareFlip(a: NoteDto, b: NoteDto, sort: SortKey, order: SortOrder)
    ensures Compare(a, b, sort, order) > 0 ==> Compare(b, a, sort, order) <= 0
  {
    if sort == Title && a.title != b.title {
      LessTotal(a.title, b.title);
      if Less(a.title, b.title) {
        LessAsymmetric(a.title, b.title);
      }
    } else if sort == Title {
      LessIrreflexive(a.title);
    }
  }

  /**
   * `sortNotes`: a sorted copy of the notes. The input sequence is a value,
   * so it is left as it was.
   */
  method SortNotes(notes: seq<NoteDto>, sort: SortKey, order: SortOrder) returns (r: seq<NoteDto>)
    ensures multiset(r) == multiset(notes)
    ensures SortedBy(r, sort, order)
  {
    var arr := new NoteDto[|notes|](i requires 0 <= i < |notes| => notes[i]);
    assert arr[..] == notes;
    SortInPlace(arr, sort, order);
    r := arr[..];
  }

  /** `arr.sort(...)` with the page's comparator, as an insertion sort. */
  method SortInPlace(arr: array<NoteDto>, sort: SortKey, order: SortOrder)
    modifies arr
    ensures multiset(arr[..]) == multiset(old(arr[..]))
    ensures SortedBy(arr[..], sort, order)
  {
    var i := 0;
    while i < arr.Length
      invariant 0 <= i <= arr.Length
      invariant multiset(arr[..]) == multiset(old(arr[..]))
      invariant SortedBy(arr[..i], sort, order)
    {
      InsertAt(arr, i, sort, order);
      i := i + 1;
    }
    assert arr[..arr.Length] == arr[..];
  }

  /** Sorted up to i, except possibly between j - 1 and j, where the gap is bridged. */
  predicate SortedExcept(s: seq<NoteDto>, i: int, j: int, sort: SortKey, order: SortOrder)
    requires 0 <= j <= i < |s|
  {
    (forall k :: 0 < k <= i && k != j ==> Compare(s[k - 1], s[k], sort, order) <= 0)
    && (0 < j < i ==> Compare(s[j - 1], s[j + 1], sort, order) <= 0)
  }

  function SwapSeq<T>(s: seq<T>, a: int, b: int): (r: seq<T>)
    requires 0 <= a < b < |s|
    ensures |r| == |s| && r[a] == s[b] && r[b] == s[a]
    ensures forall m :: 0 <= m < |s| && m != a && m != b ==> r[m] == s[m]
  {
    s[a := s[b]][b := s[a]]
  }

  /** One step of the insertion: swapping an out-of-order pair moves the gap down. */
  lemma InsertStep(s: seq<NoteDto>, i: int, j: int, sort: SortKey, order: SortOrder)
    requires 0 < j <= i < |s| && SortedExcept(s, i, j, sort, order)
    requires Compare(s[j - 1], s[j], sort, order) > 0
    ensures SortedExcept(SwapSeq(s, j - 1, j), i, j - 1, sort, order)
  {
    var t := SwapSeq(s, j - 1, j);
    CompareFlip(s[j - 1], s[j], sort, order);
    forall k | 0 < k <= i && k != j - 1
      ensures Compare(t[k - 1], t[k], sort, order) <= 0
    {
      if k == j + 1 {
        assert t[k - 1] == s[j - 1] && t[k] == s[j + 1];
      } else if k != j {
        assert t[k - 1] == s[k - 1] && t[k] == s[k];
      }
    }
    if 0 < j - 1 {
      assert t[j - 2] == s[j - 2] && t[j] == s[j - 1];
    }
  }

  /** The gap closes where the insertion stops. */
  lemma InsertDone(s: seq<NoteDto>, i: int, j: int, sort: SortKey, order: SortOrder)
    requires 0 <= j <= i < |s| && SortedExcept(s, i, j, sort, order)
    requires j == 0 || Compare(s[j - 1], s[j], sort, order) <= 0
    ensures SortedBy(s[..i + 1], sort, order)
  {
    var u := s[..i + 1];
    forall k | 0 < k < |u|
      ensures Compare(u[k - 1], u[k], sort, order) <= 0
    {
      assert u[k - 1] == s[k - 1] && u[k] == s[k];
    }
  }

  /** Moves arr[i] down past the notes that must follow it. */
  method InsertAt(arr: array<NoteDto>, i: int, sort: SortKey, order: SortOrder)
    requires 0 <= i < arr.Length && SortedBy(arr[..i], sort, order)
    modifies arr
    ensures multiset(arr[..]) == multiset(old(arr[..]))
    ensures SortedBy(arr[..i + 1], sort, order)
  {
    var j := i;
    assert SortedExcept(arr[..], i, j, sort, order) by {
      forall k | 0 < k < i
        ensures Compare(arr[k - 1], arr[k], sort, order) <= 0
      {
        assert arr[..i][k - 1] == arr[k - 1] && arr[..i][k] == arr[k];
      }
    }
    while j > 0 && Compare(arr[j - 1], arr[j], sort, order) > 0
      invariant 0 <= j <= i
      invariant multiset(arr[..]) == multiset(old(arr[..]))
      invariant SortedExcept(arr[..], i, j, sort, order)
    {
      InsertStep(arr[..], i, j, sort, order);
      Swap(arr, j - 1, j);
      j := j - 1;
    }
    InsertDone(arr[..], i, j, sort, order);
  }

  method Swap<T>(arr: array<T>, i: int, j: int)
    requires 0 <= i < j < arr.Length
    modifies arr
    ensures arr[..] == SwapSeq(old(arr[..]), i, j)
    ensures multiset(arr[..]) == multiset(old(arr[..]))
  {
    arr[i], arr[j] := arr[j], arr[i];
  }

  /** Date sorts: "asc" gives non-decreasing timestamps, "desc" non-increasing ones. */
  lemma {:induction false} SortedByDate(xs: seq<NoteDto>, sort: SortKey, order: SortOrder, i: int, j: int)
    requires SortedBy(xs, sort, order) && sort != Title
    requires 0 <= i <= j < |xs|
    ensures var key := (n: NoteDto) => if sort == CreatedAt then n.createdAt.ms else n.updatedAt.ms;
            if order == Asc then key(xs[i]) <= key(xs[j]) else key(xs[i]) >= key(xs[j])
    decreases j - i
  {
    if i < j {
      SortedByDate(xs, sort, order, i, j - 1);
      assert Compare(xs[j - 1], xs[j], sort, order) <= 0;
    }
  }

  /** The title sort: titles come out in code-unit order, ascending or descending. */
  lemma {:induction false} SortedByTitle(xs: seq<NoteDto>, order: SortOrder, i: int, j: int)
    requires SortedBy(xs, Title, order)
    requires 0 <= i <= j < |xs|
    ensures if order == Asc then !Less(xs[j].title, xs[i].title) else !Less(xs[i].title, xs[j].title)
    decreases j - i
  {
    if i == j {
      LessIrreflexive(xs[i].title);
    } else {
      SortedByTitle(xs, order, i, j - 1);
      var a, b, c := xs[i].title, xs[j - 1].title, xs[j].title;
      assert Compare(xs[j - 1], xs[j], Title, order) <= 0;
      if order == Asc {
        assert !Less(c, b) by {
          if Less(c, b) {
            LessAsymmetric(c, b);
          }
        }
        NotLessTransitive(a, b, c);
      } else {
        assert !Less(b, c);
        NotLessTransitive(c, b, a);
      }
    }
  }

  // ---------- facet universes and the sort links ----------

  /** `Array.from(new Set(allNotes.flatMap(n => n.tags))).sort()`. */
  function AllTagNames(notes: seq<NoteDto>): seq<string> {
    SortedUnique(Flatten(seq(|notes|, i requires 0 <= i < |notes| => notes[i].tags)))
  }

  function AllSourceNames(notes: seq<NoteDto>): seq<string> {
    SortedUnique(Flatten(seq(|notes|, i requires 0 <= i < |notes| => notes[i].sources)))
  }

  /** The tag universe is strictly increasing and holds exactly the tags of some note. */
  lemma AllTagNamesMeaning(notes: seq<NoteDto>, x: string)
    ensures StrictlySorted(AllTagNames(notes))
    ensures x in AllTagNames(notes) <==> exists i :: 0 <= i < |notes| && x in notes[i].tags
  {
    var xss := seq(|notes|, i requires 0 <= i < |notes| => notes[i].tags);
    if exists i :: 0 <= i < |notes| && x in notes[i].tags {
      var i :| 0 <= i < |notes| && x in notes[i].tags;
      var k :| 0 <= k < |xss[i]| && xss[i][k] == x;
    }
  }

  lemma AllSourceNamesMeaning(notes: seq<NoteDto>, x: string)
    ensures StrictlySorted(AllSourceNames(notes))
    ensures x in AllSourceNames(notes) <==> exists i :: 0 <= i < |notes| && x in notes[i].sources
  {
    var xss := seq(|notes|, i requires 0 <= i < |notes| => notes[i].sources);
    if exists i :: 0 <= i < |notes| && x in notes[i].sources {
      var i :| 0 <= i < |notes| && x in notes[i].sources;
      var k :| 0 <= k < |xss[i]| && xss[i][k] == x;
    }
  }

  /** The order a sort link asks for (lines 228-230). */
  function NextOrder(active: bool, order: SortOrder): SortOrder {
    if active && order == Desc then Asc else Desc
  }

  /** The link of a sort option, built from the page's own parameters. */
  function SortLink(r: Parsed, option: SortKey): ListParams {
    ListParamsOf(r).(sort := Some(option), order := Some(NextOrder(r.sort == option, r.order)))
  }

  /**
   * Following a sort link: the active option flips "desc" to "asc" and
   * anything else to "desc"; another option starts at "desc"; every other
   * parameter survives the link.
   */
  lemma SortLinkMeaning(r: Parsed, option: SortKey)
    requires CleanNames(r.tags) && CleanNames(r.sources) && IsTrimmed(r.q)
    ensures ParseListParams(SearchParamsOf(ListQueryPairs(SortLink(r, option))))
            == r.(sort := option, order := if r.sort == option && r.order == Desc then Asc else Desc)
  {
    SortOverrideRoundTrip(r, option, NextOrder(r.sort == option, r.order));
  }

  lemma SortOverrideRoundTrip(r: Parsed, sort: SortKey, order: SortOrder)
    requires CleanNames(r.tags) && CleanNames(r.sources) && IsTrimmed(r.q)
    ensures ParseListParams(SearchParamsOf(ListQueryPairs(ListParamsOf(r).(sort := Some(sort), order := Some(order)))))
            == r.(sort := sort, order := order)
  {
    var p := ListParamsOf(r).(sort := Some(sort), order := Some(order));
    QueryRoundTrip(p);
    var q := p.q.GetOr("");
    assert q == r.q;
    TrimOfTrimmed(q);
  }
}
