/**
 * lib/leetcode.service.ts: the LeetCode-notes service over the database.
 * The database is modelled by a `Store` object holding one map per table
 * (posts, meta, progress, tag and source names, link rows) and a counter in
 * place of the generated ids; the tag and list-source tables are `NameTable`
 * objects, so that `upsert` by name is one method used for both.
 */
module LeetCodeService {
  import opened Wrappers
  import opened Text
  import opened Seqs
  import opened Dates
  import opened LeetCodeContent

  datatype Difficulty = EASY | MEDIUM | HARD
  datatype FilterMode = And | Or

  /** The `type` column of a post: LEETCODE, or any other kind. */
  datatype PostType = LeetCodeType | OtherType

  // ---------- rows ----------

  datatype Post = Post(kind: PostType, title: string, slug: string, content: Json,
                       createdAt: Instant, updatedAt: Instant)
  datatype Meta = Meta(difficulty: Difficulty, independent: bool, problemUrl: Option<string>)
  datatype Progress = Progress(firstDate: Instant, latestDate: Instant, count: nat)

  function Lookup<K, V>(m: map<K, V>, k: K): Option<V> {
    if k in m then Some(m[k]) else None
  }

  /** The link rows of a post, in insertion order; no entry means no rows. */
  function LinksOf(m: map<nat, seq<nat>>, id: nat): seq<nat> {
    if id in m then m[id] else []
  }

  /** The names of the linked ids (`pt.tag.name`). */
  function NamesOf(names: map<nat, string>, ids: seq<nat>): (r: seq<string>)
    requires forall i :: 0 <= i < |ids| ==> ids[i] in names
    ensures |r| == |ids| && forall i :: 0 <= i < |ids| ==> r[i] == names[ids[i]]
  {
    seq(|ids|, i requires 0 <= i < |ids| => names[ids[i]])
  }

  predicate KeysBelow(keys: set<nat>, bound: nat) {
    forall k :: k in keys ==> k < bound
  }

  /** Every link row names an existing id. */
  predicate LinksInto(links: map<nat, seq<nat>>, names: map<nat, string>) {
    forall p :: p in links ==> forall i :: 0 <= i < |links[p]| ==> links[p][i] in names
  }

  /** Every entry of m0 is still in m1 with the same value: rows are only ever added. */
  ghost predicate Keeps<K, V>(m0: map<K, V>, m1: map<K, V>) {
    forall k :: k in m0 ==> k in m1 && m1[k] == m0[k]
  }

  /** Rows keyed by a post other than id are exactly as they were. */
  ghost predicate SameExcept<V>(m0: map<nat, V>, m1: map<nat, V>, id: nat) {
    forall p :: p != id ==> (p in m1 <==> p in m0) && (p in m1 ==> m1[p] == m0[p])
  }

  // ---------- the name tables ----------

  /** The `tag` or `listSource` table: unique names with generated ids. */
  class NameTable {
    var ids: map<string, nat>
    var names: map<nat, string>
    var next: nat

    /** ids and names are inverse maps, and every id is below the counter. */
    ghost predicate Valid()
      reads this
    {
      (forall n :: n in ids ==> ids[n] in names && names[ids[n]] == n)
      && (forall i :: i in names ==> i < next && names[i] in ids && ids[names[i]] == i)
    }

    constructor ()
      ensures Valid() && ids == map[] && names == map[] && next == 0
    {
      ids := map[];
      names := map[];
      next := 0;
    }

    /** `upsert({ where: { name }, create: { name }, update: {} })`: the row's id, created if missing. */
    method Upsert(name: string) returns (id: nat)
      requires Valid()
      modifies this
      ensures Valid()
      ensures name in old(ids) ==> id == old(ids)[name] && ids == old(ids) && names == old(names) && next == old(next)
      ensures name !in old(ids) ==> id == old(next) && ids == old(ids)[name := id]
                                    && names == old(names)[id := name] && next == old(next) + 1
    {
      if name in ids {
        id := ids[name];
      } else {
        id := next;
        ids := ids[name := id];
        names := names[id := name];
        next := next + 1;
      }
    }

    /**
     * `ensureTagIds(names)` and `ensureListSourceIds(names)`: one id per
     * normalised name, in order; existing rows keep their ids.
     */
    method EnsureIds(input: seq<string>) returns (out: seq<nat>)
      requires Valid()
      modifies this
      ensures Valid()
      ensures var norm := NormalizeNames(input);
              |out| == |norm| && forall k :: 0 <= k < |norm| ==> norm[k] in ids && ids[norm[k]] == out[k]
      ensures forall k :: 0 <= k < |out| ==> out[k] in names
      ensures forall n :: n in ids <==> n in old(ids) || n in NormalizeNames(input)
      ensures forall n :: n in old(ids) ==> ids[n] == old(ids)[n]
      ensures forall i :: i in old(names) ==> i in names && names[i] == old(names)[i]
    {
      var normalized := NormalizeNames(input);
      if |normalized| == 0 {
        return [];
      }
      out := UpsertAll(normalized);
    }

    /** The loop of `ensureTagIds`: one upsert per name, in order. */
    method UpsertAll(ns: seq<string>) returns (out: seq<nat>)
      requires Valid()
      modifies this
      ensures Valid()
      ensures |out| == |ns| && forall k :: 0 <= k < |ns| ==> ns[k] in ids && ids[ns[k]] == out[k]
      ensures forall k :: 0 <= k < |out| ==> out[k] in names
      ensures forall n :: n in ids <==> n in old(ids) || n in ns
      ensures forall n :: n in old(ids) ==> ids[n] == old(ids)[n]
      ensures forall i :: i in old(names) ==> i in names && names[i] == old(names)[i]
    {
      out := [];
      for k := 0 to |ns|
        invariant Valid()
        invariant |out| == k
        invariant forall j :: 0 <= j < k ==> ns[j] in ids && ids[ns[j]] == out[j]
        invariant forall n :: n in ids <==> n in old(ids) || n in ns[..k]
        invariant forall n :: n in old(ids) ==> ids[n] == old(ids)[n]
        invariant forall i :: i in old(names) ==> i in names && names[i] == old(names)[i]
      {
        assert ns[..k + 1] == ns[..k] + [ns[k]];
        var id := Upsert(ns[k]);
        out := out + [id];
      }
      assert ns[..|ns|] == ns;
    }
  }

  // ---------- DTOs ----------

  datatype MetaDto = MetaDto(difficulty: Difficulty, sources: seq<string>, independent: bool, problemUrl: Option<string>)
  datatype ProgressDto = ProgressDto(firstDate: string, latestDate: string, count: nat)
  datatype DisplayProgress = DisplayProgress(firstDate: string, latestDate: string, count: nat)
  datatype NoteDto = NoteDto(
    id: nat, title: string, slug: string, content: Json,
    tags: seq<string>, sources: seq<string>,
    createdAt: Instant, updatedAt: Instant,
    meta: Option<MetaDto>, progress: Option<ProgressDto>,
    displayProgress: DisplayProgress)

  /** A post with everything `includeLeetCode` loads. */
  datatype FullRow = FullRow(id: nat, post: Post, meta: Option<Meta>, progress: Option<Progress>,
                             tagNames: seq<string>, sourceNames: seq<string>)

  /** `toYMD(d)`: `d.toISOString().slice(0, 10)`. */
  function ToYmd(d: Instant): (r: string)
    ensures |r| == 10
  {
    IsoDate10(d.utc)
  }

  /** `toProgressDto(p)`. */
  function ToProgressDto(p: Option<Progress>): (r: Option<ProgressDto>)
    ensures r.None? <==> p.None?
    ensures r.Some? ==> r.value == ProgressDto(ToYmd(p.value.firstDate), ToYmd(p.value.latestDate), p.value.count)
  {
    match p
    case None => None
    case Some(q) => Some(ProgressDto(ToYmd(q.firstDate), ToYmd(q.latestDate), q.count))
  }

  /** The display progress: first = publication, latest = last check-in or publication, count = 1 + check-ins. */
  function DisplayProgressOf(createdAt: Instant, progress: Option<ProgressDto>): DisplayProgress {
    var firstDate := ToYmd(createdAt);
    DisplayProgress(
      firstDate,
      if progress.Some? then progress.value.latestDate else firstDate,
      if progress.Some? then 1 + progress.value.count else 1)
  }

  /** `toNoteDto(row)`. */
  function ToNoteDto(row: FullRow): NoteDto {
    var progress := ToProgressDto(row.progress);
    NoteDto(
      row.id, row.post.title, row.post.slug, row.post.content,
      row.tagNames, row.sourceNames,
      row.post.createdAt, row.post.updatedAt,
      match row.meta
      case None => None
      case Some(m) => Some(MetaDto(m.difficulty, row.sourceNames, m.independent, m.problemUrl)),
      progress,
      DisplayProgressOf(row.post.createdAt, progress))
  }

  /**
   * The display progress of a note starts on its creation day, moves to the
   * last check-in day, and counts the publication itself plus every check-in.
   */
  lemma DisplayProgressMeaning(row: FullRow)
    ensures var d := ToNoteDto(row).displayProgress;
            d.firstDate == ToYmd(row.post.createdAt)
            && d.latestDate == (if row.progress.Some? then ToYmd(row.progress.value.latestDate) else d.firstDate)
            && d.count == (if row.progress.Some? then 1 + row.progress.value.count else 1)
            && d.count >= 1
  {
  }

  /** The DTO's tags and sources, and the meta's sources, are the linked names in link order. */
  lemma NoteDtoNames(row: FullRow)
    ensures ToNoteDto(row).tags == row.tagNames && ToNoteDto(row).sources == row.sourceNames
    ensures ToNoteDto(row).meta.Some? <==> row.meta.Some?
    ensures ToNoteDto(row).meta.Some? ==> ToNoteDto(row).meta.value.sources == row.sourceNames
  {
  }

  // ---------- check-in ----------

  /** The progress row after one check-in on `date`. */
  function CheckedIn(p: Option<Progress>, date: Instant): (r: Progress)
    ensures r.latestDate == date && r.count >= 1
  {
    match p
    case None => Progress(date, date, 1)
    case Some(q) => Progress(q.firstDate, date, q.count + 1)
  }

  /** The progress after checking in on each of the dates in turn. */
  function CheckIns(p: Option<Progress>, dates: seq<Instant>): Option<Progress>
    decreases |dates|
  {
    if dates == [] then p else Some(CheckedIn(CheckIns(p, dates[..|dates| - 1]), dates[|dates| - 1]))
  }

  /**
   * From no progress, n check-ins leave count n, the first check-in's date
   * as firstDate and the last one's as latestDate.
   */
  lemma {:induction false} CheckInsFromNothing(dates: seq<Instant>)
    ensures dates == [] <==> CheckIns(None, dates).None?
    ensures dates != [] ==> CheckIns(None, dates) == Some(Progress(dates[0], dates[|dates| - 1], |dates|))
    decreases |dates|
  {
    if dates != [] {
      var init := dates[..|dates| - 1];
      CheckInsFromNothing(init);
      if init != [] {
        assert init[0] == dates[0];
      }
    }
  }

  /** Every check-in adds exactly one to the count and never moves firstDate. */
  lemma {:induction false} CheckInsCount(q: Progress, dates: seq<Instant>)
    ensures CheckIns(Some(q), dates).Some?
    ensures CheckIns(Some(q), dates).value.count == q.count + |dates|
    ensures CheckIns(Some(q), dates).value.firstDate == q.firstDate
    decreases |dates|
  {
    if dates != [] {
      CheckInsCount(q, dates[..|dates| - 1]);
    }
  }

  // ---------- the store ----------

  /** `input.problemUrl?.trim() || null`. */
  function UrlOrNull(u: Option<string>): (r: Option<string>)
    ensures r.None? <==> u.None? || IsBlank(u.value)
    ensures r.Some? ==> r.value == Trim(u.value) && r.value != [] && IsTrimmed(r.value)
  {
    TrimEmptyIffBlank(u);
    match u
    case None => None
    case Some(s) => if Trim(s) == [] then None else Some(Trim(s))
  }

  lemma TrimEmptyIffBlank(u: Option<string>)
    ensures u.Some? ==> (Trim(u.value) == [] <==> IsBlank(u.value))
  {
    if u.Some? {
      TrimEmptyIff(u.value);
    }
  }

  datatype CreateInput = CreateInput(
    title: string, slug: string, content: Json, tags: seq<string>,
    difficulty: Difficulty, sources: seq<string>,
    independent: Option<bool>, problemUrl: Option<string>)

  /**
   * `UpdateLeetCodeNoteInput`: None is an absent field. problemUrl is
   * doubly optional: absent, null (Some(None)) or a string.
   */
  datatype UpdateInput = UpdateInput(
    title: Option<string>, slug: Option<string>, content: Option<Json>,
    tags: Option<seq<string>>, difficulty: Option<Difficulty>, sources: Option<seq<string>>,
    independent: Option<bool>, problemUrl: Option<Option<string>>)

  /** Whether `metaUpdate` is defined (lib/leetcode.service.ts:248-259). */
  predicate UpdatesMeta(u: UpdateInput) {
    u.difficulty.Some? || u.independent.Some? || u.problemUrl.Some?
  }

  /** The post columns after `post.update`; `@updatedAt` is set to now. */
  function UpdatedPost(p: Post, u: UpdateInput, now: Instant): (r: Post)
    ensures r.kind == p.kind && r.createdAt == p.createdAt && r.updatedAt == now
  {
    Post(p.kind, u.title.GetOr(p.title), u.slug.GetOr(p.slug), u.content.GetOr(p.content), p.createdAt, now)
  }

  /** The meta columns after `leetcodeMeta.update`. */
  function UpdatedMeta(m: Meta, u: UpdateInput): Meta {
    Meta(u.difficulty.GetOr(m.difficulty), u.independent.GetOr(m.independent),
         if u.problemUrl.Some? then UrlOrNull(u.problemUrl.value) else m.problemUrl)
  }

  /** An absent field leaves its column as it was; a supplied one sets it to the (normalised) value. */
  lemma UpdateOnlySupplied(p: Post, m: Meta, u: UpdateInput, now: Instant)
    ensures u.title.None? ==> UpdatedPost(p, u, now).title == p.title
    ensures u.slug.None? ==> UpdatedPost(p, u, now).slug == p.slug
    ensures u.content.None? ==> UpdatedPost(p, u, now).content == p.content
    ensures !UpdatesMeta(u) ==> UpdatedMeta(m, u) == m
    ensures u.problemUrl == Some(None) ==> UpdatedMeta(m, u).problemUrl.None?
    ensures u.problemUrl.Some? && u.problemUrl.value.Some? ==>
              (UpdatedMeta(m, u).problemUrl.None? <==> IsBlank(u.problemUrl.value.value))
  {
  }

  /** Applying the same update twice is applying it once (a later `now` aside). */
  lemma UpdateIdempotent(p: Post, m: Meta, u: UpdateInput, now: Instant)
    ensures UpdatedPost(UpdatedPost(p, u, now), u, now) == UpdatedPost(p, u, now)
    ensures UpdatedMeta(UpdatedMeta(m, u), u) == UpdatedMeta(m, u)
  {
  }

  /** The outcome of `updateLeetCodeNote`; Failed is the throw of a nested update of a missing meta row. */
  datatype UpdateOutcome = NotFound | Updated(note: NoteDto) | Failed

  class Store {
    var posts: map<nat, Post>
    var metas: map<nat, Meta>
    var progress: map<nat, Progress>
    var postTags: map<nat, seq<nat>>
    var postSources: map<nat, seq<nat>>
    var nextPost: nat
    const tags: NameTable
    const sources: NameTable

    /** Ids below the counter; link rows point at existing tags and sources. */
    ghost predicate Valid()
      reads this, tags, sources
    {
      tags != sources && tags.Valid() && sources.Valid()
      && KeysBelow(posts.Keys, nextPost) && KeysBelow(metas.Keys, nextPost) && KeysBelow(progress.Keys, nextPost)
      && KeysBelow(postTags.Keys, nextPost) && KeysBelow(postSources.Keys, nextPost)
      && LinksInto(postTags, tags.names) && LinksInto(postSources, sources.names)
    }

    constructor ()
      ensures Valid() && posts == map[] && nextPost == 0
      ensures metas == map[] && progress == map[] && postTags == map[] && postSources == map[]
      ensures tags.ids == map[] && tags.names == map[] && sources.ids == map[] && sources.names == map[]
    {
      posts := map[];
      metas := map[];
      progress := map[];
      postTags := map[];
      postSources := map[];
      nextPost := 0;
      tags := new NameTable();
      sources := new NameTable();
    }

    /** The row of post id with its relations. */
    function Row(id: nat): FullRow
      requires Valid() && id in posts
      reads this, tags, sources
    {
      var tagLinks := LinksOf(postTags, id);
      var sourceLinks := LinksOf(postSources, id);
      FullRow(id, posts[id], Lookup(metas, id), Lookup(progress, id),
              NamesOf(tags.names, tagLinks), NamesOf(sources.names, sourceLinks))
    }

    predicate IsLeetCode(id: nat)
      reads this
    {
      id in posts && posts[id].kind == LeetCodeType
    }

    /** `getLeetCodeNoteById(id)`. */
    function NoteById(id: nat): (r: Option<NoteDto>)
      requires Valid()
      reads this, tags, sources
      ensures r.Some? <==> IsLeetCode(id)
      ensures r.Some? ==> r.value.id == id && r.value.title == posts[id].title && r.value.slug == posts[id].slug
    {
      if IsLeetCode(id) then Some(ToNoteDto(Row(id))) else None
    }

    /** `createLeetCodeNote(input)`: a new post with its meta, tag and source links. `now` is the creation time. */
    method CreateLeetCodeNote(input: CreateInput, now: Instant) returns (note: NoteDto)
      requires Valid()
      modifies this, tags, sources
      ensures Valid()
      ensures var id := old(nextPost);
              nextPost == id + 1 && id !in old(posts)
              && posts == old(posts)[id := Post(LeetCodeType, input.title, input.slug, input.content, now, now)]
              && metas == old(metas)[id := Meta(input.difficulty, input.independent.GetOr(false), UrlOrNull(input.problemUrl))]
              && progress == old(progress)
              && note == ToNoteDto(Row(id))
      ensures note.tags == NormalizeNames(input.tags) && note.sources == NormalizeNames(input.sources)
      ensures note.progress.None? && note.displayProgress.count == 1
      ensures forall n :: n in tags.ids <==> n in old(tags.ids) || n in NormalizeNames(input.tags)
      ensures forall n :: n in sources.ids <==> n in old(sources.ids) || n in NormalizeNames(input.sources)
      ensures SameExcept(old(postTags), postTags, old(nextPost)) && SameExcept(old(postSources), postSources, old(nextPost))
      ensures Keeps(old(tags.ids), tags.ids) && Keeps(old(tags.names), tags.names)
      ensures Keeps(old(sources.ids), sources.ids) && Keeps(old(sources.names), sources.names)
    {
      var tagIds := tags.EnsureIds(input.tags);
      var sourceIds := sources.EnsureIds(input.sources);
      var id := nextPost;
      nextPost := nextPost + 1;
      ghost var tags0, sources0 := postTags, postSources;
      WriteNote(id, Post(LeetCodeType, input.title, input.slug, input.content, now, now),
                Some(Meta(input.difficulty, input.independent.GetOr(false), UrlOrNull(input.problemUrl))),
                tagIds, sourceIds);
      SameExceptPut(tags0, id, if tagIds != [] then Some(tagIds) else None);
      SameExceptPut(sources0, id, if sourceIds != [] then Some(sourceIds) else None);
      note := ToNoteDto(Row(id));
      LinkedNames(tags.names, tagIds, NormalizeNames(input.tags), tags.ids);
      LinkedNames(sources.names, sourceIds, NormalizeNames(input.sources), sources.ids);
    }

    /**
     * The writes of `post.create`/`post.update` and `createMany`: the post
     * row, the meta row when given, and the link rows when there are any.
     */
    method WriteNote(id: nat, post: Post, meta: Option<Meta>, tagIds: seq<nat>, sourceIds: seq<nat>)
      requires Valid() && id < nextPost
      requires forall k :: 0 <= k < |tagIds| ==> tagIds[k] in tags.names
      requires forall k :: 0 <= k < |sourceIds| ==> sourceIds[k] in sources.names
      modifies this
      ensures Valid()
      ensures posts == old(posts)[id := post]
      ensures metas == if meta.Some? then old(metas)[id := meta.value] else old(metas)
      ensures postTags == if tagIds != [] then old(postTags)[id := tagIds] else old(postTags)
      ensures postSources == if sourceIds != [] then old(postSources)[id := sourceIds] else old(postSources)
      ensures LinksOf(postTags, id) == if tagIds != [] then tagIds else LinksOf(old(postTags), id)
      ensures LinksOf(postSources, id) == if sourceIds != [] then sourceIds else LinksOf(old(postSources), id)
      ensures progress == old(progress) && nextPost == old(nextPost)
    {
      posts := posts[id := post];
      if meta.Some? {
        metas := metas[id := meta.value];
      }
      if |tagIds| > 0 {
        postTags := postTags[id := tagIds];
      }
      if |sourceIds| > 0 {
        postSources := postSources[id := sourceIds];
      }
    }

    /** `updateLeetCodeNote(id, input)`; `now` is the time `@updatedAt` records. */
    method UpdateLeetCodeNote(id: nat, input: UpdateInput, now: Instant) returns (r: UpdateOutcome)
      requires Valid()
      modifies this, tags, sources
      ensures Valid()
      ensures !old(IsLeetCode(id)) ==> r == NotFound && posts == old(posts) && metas == old(metas)
                                       && postTags == old(postTags) && postSources == old(postSources)
                                       && tags.ids == old(tags.ids) && sources.ids == old(sources.ids)
      ensures forall p :: p != id ==> LinksOf(postTags, p) == LinksOf(old(postTags), p)
      ensures forall p :: p != id ==> LinksOf(postSources, p) == LinksOf(old(postSources), p)
      ensures input.tags.None? ==> LinksOf(postTags, id) == LinksOf(old(postTags), id)
      ensures input.sources.None? ==> LinksOf(postSources, id) == LinksOf(old(postSources), id)
      ensures input.tags.Some? && r.Updated? ==> r.note.tags == NormalizeNames(input.tags.value)
      ensures input.sources.Some? && r.Updated? ==> r.note.sources == NormalizeNames(input.sources.value)
      ensures input.tags.Some? && r.Failed? ==> LinksOf(postTags, id) == []
      ensures input.sources.Some? && r.Failed? ==> LinksOf(postSources, id) == []
      ensures old(IsLeetCode(id)) && UpdatesMeta(input) && id !in old(metas) ==>
                r == Failed && posts == old(posts) && metas == old(metas)
      ensures old(IsLeetCode(id)) && !(UpdatesMeta(input) && id !in old(metas)) ==>
                posts == old(posts)[id := UpdatedPost(old(posts)[id], input, now)]
                && metas == (if UpdatesMeta(input) then old(metas)[id := UpdatedMeta(old(metas)[id], input)] else old(metas))
                && r == Updated(ToNoteDto(Row(id)))
      ensures SameExcept(old(posts), posts, id) && SameExcept(old(metas), metas, id)
      ensures SameExcept(old(postTags), postTags, id) && SameExcept(old(postSources), postSources, id)
      ensures Keeps(old(tags.ids), tags.ids) && Keeps(old(tags.names), tags.names)
      ensures Keeps(old(sources.ids), sources.ids) && Keeps(old(sources.names), sources.names)
      ensures progress == old(progress) && nextPost == old(nextPost)
    {
      if !IsLeetCode(id) {
        return NotFound;
      }
      r := UpdateExisting(id, input, now);
    }

    /** The update of a note that exists: links reset first, then the post and meta rows. */
    method UpdateExisting(id: nat, input: UpdateInput, now: Instant) returns (r: UpdateOutcome)
      requires Valid() && IsLeetCode(id)
      modifies this, tags, sources
      ensures Valid()
      ensures forall p :: p != id ==> LinksOf(postTags, p) == LinksOf(old(postTags), p)
      ensures forall p :: p != id ==> LinksOf(postSources, p) == LinksOf(old(postSources), p)
      ensures input.tags.None? ==> LinksOf(postTags, id) == LinksOf(old(postTags), id)
      ensures input.sources.None? ==> LinksOf(postSources, id) == LinksOf(old(postSources), id)
      ensures input.tags.Some? && r.Updated? ==> r.note.tags == NormalizeNames(input.tags.value)
      ensures input.sources.Some? && r.Updated? ==> r.note.sources == NormalizeNames(input.sources.value)
      ensures input.tags.Some? && r.Failed? ==> LinksOf(postTags, id) == []
      ensures input.sources.Some? && r.Failed? ==> LinksOf(postSources, id) == []
      ensures UpdatesMeta(input) && id !in old(metas) ==>
                r == Failed && posts == old(posts) && metas == old(metas)
      ensures !(UpdatesMeta(input) && id !in old(metas)) ==>
                posts == old(posts)[id := UpdatedPost(old(posts)[id], input, now)]
                && metas == (if UpdatesMeta(input) then old(metas)[id := UpdatedMeta(old(metas)[id], input)] else old(metas))
                && r == Updated(ToNoteDto(Row(id)))
      ensures SameExcept(old(posts), posts, id) && SameExcept(old(metas), metas, id)
      ensures SameExcept(old(postTags), postTags, id) && SameExcept(old(postSources), postSources, id)
      ensures Keeps(old(tags.ids), tags.ids) && Keeps(old(tags.names), tags.names)
      ensures Keeps(old(sources.ids), sources.ids) && Keeps(old(sources.names), sources.names)
      ensures progress == old(progress) && nextPost == old(nextPost)
    {
      var metaUpdate := UpdatesMeta(input);
      ghost var tags0, sources0 := postTags, postSources;
      ghost var posts0, metas0 := posts, metas;
      var tagIds, sourceIds := ResetLinks(id, input.tags, input.sources);
      ghost var tags1, sources1 := postTags, postSources;
      if metaUpdate && id !in metas {
        LinksReset(tags0, tags1, tags1, id, input.tags.Some?, []);
        LinksReset(sources0, sources1, sources1, id, input.sources.Some?, []);
        SameExceptPut(posts0, id, None);
        SameExceptPut(metas0, id, None);
        return Failed;
      }
      var post := UpdatedPost(posts[id], input, now);
      var meta := if metaUpdate then Some(UpdatedMeta(metas[id], input)) else None;
      WriteNote(id, post, meta, tagIds, sourceIds);
      LinksReset(tags0, tags1, postTags, id, input.tags.Some?, tagIds);
      LinksReset(sources0, sources1, postSources, id, input.sources.Some?, sourceIds);
      SameExceptPut(posts0, id, Some(post));
      SameExceptPut(metas0, id, meta);
      r := Updated(ToNoteDto(Row(id)));
    }

    /**
     * The steps of `updateLeetCodeNote` before `post.update`: a supplied list
     * deletes the post's link rows and has its names ensured.
     */
    method ResetLinks(id: nat, tagNames: Option<seq<string>>, sourceNames: Option<seq<string>>)
      returns (tagIds: seq<nat>, sourceIds: seq<nat>)
      requires Valid()
      modifies this, tags, sources
      ensures Valid()
      ensures posts == old(posts) && metas == old(metas) && progress == old(progress) && nextPost == old(nextPost)
      ensures postTags == if tagNames.Some? then old(postTags) - {id} else old(postTags)
      ensures postSources == if sourceNames.Some? then old(postSources) - {id} else old(postSources)
      ensures forall k :: 0 <= k < |tagIds| ==> tagIds[k] in tags.names
      ensures forall k :: 0 <= k < |sourceIds| ==> sourceIds[k] in sources.names
      ensures NamesOf(tags.names, tagIds) == if tagNames.Some? then NormalizeNames(tagNames.value) else []
      ensures NamesOf(sources.names, sourceIds) == if sourceNames.Some? then NormalizeNames(sourceNames.value) else []
      ensures tagNames.None? ==> tags.ids == old(tags.ids)
      ensures sourceNames.None? ==> sources.ids == old(sources.ids)
      ensures Keeps(old(tags.ids), tags.ids) && Keeps(old(tags.names), tags.names)
      ensures Keeps(old(sources.ids), sources.ids) && Keeps(old(sources.names), sources.names)
    {
      if tagNames.Some? {
        postTags := postTags - {id};
      }
      if sourceNames.Some? {
        postSources := postSources - {id};
      }
      tagIds := [];
      if tagNames.Some? {
        tagIds := tags.EnsureIds(tagNames.value);
        LinkedNames(tags.names, tagIds, NormalizeNames(tagNames.value), tags.ids);
      }
      sourceIds := [];
      if sourceNames.Some? {
        sourceIds := sources.EnsureIds(sourceNames.value);
        LinkedNames(sources.names, sourceIds, NormalizeNames(sourceNames.value), sources.ids);
      }
    }

    /** `checkInLeetCode(id, todayISO)`, with the parsed day as `date`. */
    method CheckInLeetCode(id: nat, date: Instant) returns (r: Option<NoteDto>)
      requires Valid()
      modifies this
      ensures Valid()
      ensures posts == old(posts) && metas == old(metas) && postTags == old(postTags)
              && postSources == old(postSources) && nextPost == old(nextPost)
      ensures !IsLeetCode(id) ==> r.None? && progress == old(progress)
      ensures IsLeetCode(id) ==> progress == old(progress)[id := CheckedIn(Lookup(old(progress), id), date)]
                                 && r == NoteById(id)
    {
      if !IsLeetCode(id) {
        return None;
      }
      var p := Lookup(progress, id);
      if p.None? {
        progress := progress[id := Progress(date, date, 1)];
      } else {
        progress := progress[id := Progress(p.value.firstDate, date, p.value.count + 1)];
      }
      r := NoteById(id);
    }
  }

  /**
   * A link map whose entry for `id` is deleted when a list is supplied and
   * then set to the new ids when there are any: the other posts keep their
   * links, and `id` ends up with exactly the new ids, or its old links when
   * no list was supplied.
   */
  lemma LinksReset(m0: map<nat, seq<nat>>, m1: map<nat, seq<nat>>, m2: map<nat, seq<nat>>, id: nat, supplied: bool, ids: seq<nat>)
    requires m1 == if supplied then m0 - {id} else m0
    requires m2 == if ids != [] then m1[id := ids] else m1
    requires !supplied ==> ids == []
    ensures forall p :: p != id ==> LinksOf(m2, p) == LinksOf(m0, p)
    ensures LinksOf(m2, id) == if supplied then ids else LinksOf(m0, id)
    ensures SameExcept(m0, m2, id)
  {
  }

  /** Setting the entry of id, or leaving the map alone, keeps the other entries. */
  lemma SameExceptPut<V>(m: map<nat, V>, id: nat, v: Option<V>)
    ensures SameExcept(m, if v.Some? then m[id := v.value] else m, id)
  {
  }

  /** The ids EnsureIds returned name the normalised names, in order. */
  lemma LinkedNames(names: map<nat, string>, out: seq<nat>, norm: seq<string>, ids: map<string, nat>)
    requires |out| == |norm| && forall k :: 0 <= k < |norm| ==> norm[k] in ids && ids[norm[k]] == out[k]
    requires forall n :: n in ids ==> ids[n] in names && names[ids[n]] == n
    ensures forall k :: 0 <= k < |out| ==> out[k] in names
    ensures NamesOf(names, out) == norm
  {
  }

  // ---------- buildListWhere ----------

  /** `ListLeetCodeNotesFilters`. */
  datatype Filters = Filters(difficulty: Option<Difficulty>,
                             tags: Option<seq<string>>, tagsMode: Option<FilterMode>,
                             sources: Option<seq<string>>, sourcesMode: Option<FilterMode>)

  /** The two link facets of a note. */
  datatype Facet = TagFacet | SourceFacet

  /** One clause of the `where` object. */
  datatype Condition =
    | TypeIs(kind: PostType)                      // { type: 'LEETCODE' }
    | DifficultyIs(difficulty: Difficulty)        // { leetcodeMeta: { difficulty } }
    | Named(facet: Facet, name: string)           // { postTags: { some: { tag: { name } } } }
    | AnyOf(facet: Facet, names: seq<string>)     // { postTags: { some: { tag: { name: { in: names } } } } }

  /** A single clause, or `{ AND: conditions }`. */
  datatype Where = Single(condition: Condition) | AllOf(conditions: seq<Condition>)

  function Linked(row: FullRow, facet: Facet): seq<string> {
    match facet
    case TagFacet => row.tagNames
    case SourceFacet => row.sourceNames
  }

  /** What the database does with one clause on one note. */
  predicate Holds(c: Condition, row: FullRow) {
    match c
    case TypeIs(kind) => row.post.kind == kind
    case DifficultyIs(d) => row.meta.Some? && row.meta.value.difficulty == d
    case Named(facet, name) => name in Linked(row, facet)
    case AnyOf(facet, names) => exists i :: 0 <= i < |names| && names[i] in Linked(row, facet)
  }

  predicate HoldsAll(cs: seq<Condition>, row: FullRow) {
    forall i :: 0 <= i < |cs| ==> Holds(cs[i], row)
  }

  predicate Eval(w: Where, row: FullRow) {
    match w
    case Single(c) => Holds(c, row)
    case AllOf(cs) => HoldsAll(cs, row)
  }

  /** `filters.tags?.length ? normalizeNames(filters.tags) : []`. */
  function FacetNames(given: Option<seq<string>>): (r: seq<string>)
    ensures r == NormalizeNames(given.GetOr([]))
  {
    NormalizeNamesEmpty([]);
    if given.Some? && |given.value| > 0 then NormalizeNames(given.value) else []
  }

  /** The clauses for one facet: one per name in AND mode, one `in` clause in OR mode. */
  function FacetConditions(facet: Facet, given: Option<seq<string>>, mode: Option<FilterMode>): seq<Condition> {
    var names := FacetNames(given);
    if |names| == 0 then []
    else if mode.GetOr(And) == And then AndConditions(facet, names)
    else [AnyOf(facet, names)]
  }

  function AndConditions(facet: Facet, names: seq<string>): (r: seq<Condition>)
    ensures |r| == |names| && forall i :: 0 <= i < |names| ==> r[i] == Named(facet, names[i])
  {
    seq(|names|, i requires 0 <= i < |names| => Named(facet, names[i]))
  }

  /** The type clause and, when given, the difficulty clause. */
  function BaseConditions(f: Filters): (cs: seq<Condition>)
    ensures |cs| >= 1 && cs[0] == TypeIs(LeetCodeType)
  {
    [TypeIs(LeetCodeType)] + (if f.difficulty.Some? then [DifficultyIs(f.difficulty.value)] else [])
  }

  function Conditions(f: Filters): (cs: seq<Condition>)
    ensures |cs| >= 1 && cs[0] == TypeIs(LeetCodeType)
  {
    BaseConditions(f)
    + FacetConditions(TagFacet, f.tags, f.tagsMode)
    + FacetConditions(SourceFacet, f.sources, f.sourcesMode)
  }

  /** `buildListWhere(filters)`. */
  function BuildListWhere(f: Filters): Where {
    var cs := Conditions(f);
    if |cs| == 1 then Single(cs[0]) else AllOf(cs)
  }

  /**
   * The facet rule stated on the raw names: in AND mode every name that is
   * not blank must be linked after trimming; in OR mode one of them must be,
   * unless none is.
   */
  ghost predicate FacetOk(given: Option<seq<string>>, mode: Option<FilterMode>, have: seq<string>) {
    var ns := given.GetOr([]);
    if mode.GetOr(And) == And then
      forall x :: Wanted(ns, x) ==> x in have
    else
      (forall i :: 0 <= i < |ns| ==> IsBlank(ns[i])) || exists x :: Wanted(ns, x) && x in have
  }

  /** x is the trim of a name of ns that is not blank. */
  ghost predicate Wanted(ns: seq<string>, x: string) {
    exists i :: 0 <= i < |ns| && !IsBlank(ns[i]) && Trim(ns[i]) == x
  }

  /** The filter a note must pass. */
  ghost predicate MatchesFilters(f: Filters, row: FullRow) {
    row.post.kind == LeetCodeType
    && (f.difficulty.Some? ==> row.meta.Some? && row.meta.value.difficulty == f.difficulty.value)
    && FacetOk(f.tags, f.tagsMode, row.tagNames)
    && FacetOk(f.sources, f.sourcesMode, row.sourceNames)
  }

  lemma HoldsAllAppend(a: seq<Condition>, b: seq<Condition>, row: FullRow)
    ensures HoldsAll(a + b, row) <==> HoldsAll(a, row) && HoldsAll(b, row)
  {
    if HoldsAll(a, row) && HoldsAll(b, row) {
      forall i | 0 <= i < |a + b|
        ensures Holds((a + b)[i], row)
      {
        if i >= |a| {
          assert (a + b)[i] == b[i - |a|];
        }
      }
    }
    if HoldsAll(a + b, row) {
      forall i | 0 <= i < |a|
        ensures Holds(a[i], row)
      {
        assert (a + b)[i] == a[i];
      }
      forall i | 0 <= i < |b|
        ensures Holds(b[i], row)
      {
        assert (a + b)[|a| + i] == b[i];
      }
    }
  }

  lemma NormalizedMember(ns: seq<string>, x: string)
    ensures x in NormalizeNames(ns) <==> Wanted(ns, x)
  {
    NormalizeNamesMembers(ns, x);
    if x in NormalizeNames(ns) {
      var i :| 0 <= i < |ns| && Trim(ns[i]) == x;
      assert !IsBlank(ns[i]);
    }
    if exists i :: 0 <= i < |ns| && !IsBlank(ns[i]) && Trim(ns[i]) == x {
      var i :| 0 <= i < |ns| && !IsBlank(ns[i]) && Trim(ns[i]) == x;
      assert TrimsTo(ns, x);
    }
  }

  /** In AND mode: every normalised name is linked. */
  lemma AndMeaning(facet: Facet, ns: seq<string>, row: FullRow)
    ensures HoldsAll(AndConditions(facet, NormalizeNames(ns)), row)
            <==> forall x :: Wanted(ns, x) ==> x in Linked(row, facet)
  {
    var names := NormalizeNames(ns);
    var cs := AndConditions(facet, names);
    if HoldsAll(cs, row) {
      forall x | Wanted(ns, x)
        ensures x in Linked(row, facet)
      {
        NormalizedMember(ns, x);
        var k :| 0 <= k < |names| && names[k] == x;
        assert Holds(cs[k], row);
      }
    }
    if forall x :: Wanted(ns, x) ==> x in Linked(row, facet) {
      forall k | 0 <= k < |cs|
        ensures Holds(cs[k], row)
      {
        NormalizedMember(ns, names[k]);
      }
    }
  }

  /** In OR mode: some normalised name is linked. */
  lemma OrMeaning(facet: Facet, ns: seq<string>, row: FullRow)
    ensures Holds(AnyOf(facet, NormalizeNames(ns)), row) <==> exists x :: Wanted(ns, x) && x in Linked(row, facet)
  {
    HoldsAnyOf(facet, NormalizeNames(ns), row);
    OrEquiv(ns, Linked(row, facet));
  }

  lemma HoldsAnyOf(facet: Facet, names: seq<string>, row: FullRow)
    ensures Holds(AnyOf(facet, names), row) == SomeIn(names, Linked(row, facet))
  {
  }

  predicate SomeIn(names: seq<string>, have: seq<string>) {
    exists k :: 0 <= k < |names| && names[k] in have
  }

  lemma OrEquiv(ns: seq<string>, have: seq<string>)
    ensures SomeIn(NormalizeNames(ns), have) <==> exists x :: Wanted(ns, x) && x in have
  {
    if SomeIn(NormalizeNames(ns), have) {
      OrForward(ns, have);
    }
    if exists x :: Wanted(ns, x) && x in have {
      var x :| Wanted(ns, x) && x in have;
      OrWitness(ns, x, have);
    }
  }

  lemma OrForward(ns: seq<string>, have: seq<string>)
    requires SomeIn(NormalizeNames(ns), have)
    ensures exists x :: Wanted(ns, x) && x in have
  {
    var names := NormalizeNames(ns);
    var k :| 0 <= k < |names| && names[k] in have;
    var x := names[k];
    NormalizedMember(ns, x);
    assert Wanted(ns, x) && x in have;
  }

  lemma OrWitness(ns: seq<string>, x: string, have: seq<string>)
    requires Wanted(ns, x) && x in have
    ensures SomeIn(NormalizeNames(ns), have)
  {
    NormalizedMember(ns, x);
    var names := NormalizeNames(ns);
    var k :| 0 <= k < |names| && names[k] == x;
  }

  /** Nothing is wanted from a list of blank names. */
  lemma NoneWanted(ns: seq<string>)
    requires NormalizeNames(ns) == []
    ensures forall x :: !Wanted(ns, x)
  {
    forall x
      ensures !Wanted(ns, x)
    {
      NormalizedMember(ns, x);
    }
  }

  /** One facet's clauses hold exactly when the facet rule does. */
  lemma FacetConditionsMeaning(facet: Facet, given: Option<seq<string>>, mode: Option<FilterMode>, row: FullRow)
    ensures HoldsAll(FacetConditions(facet, given, mode), row) <==> FacetOk(given, mode, Linked(row, facet))
  {
    var names := NormalizeNames(given.GetOr([]));
    if names == [] {
      FacetConditionsOfBlank(facet, given, mode, row);
    } else if mode.GetOr(And) == And {
      FacetConditionsOfAnd(facet, given, mode, row);
    } else {
      FacetConditionsOfOr(facet, given, mode, row);
    }
  }

  lemma FacetConditionsOfBlank(facet: Facet, given: Option<seq<string>>, mode: Option<FilterMode>, row: FullRow)
    requires NormalizeNames(given.GetOr([])) == []
    ensures HoldsAll(FacetConditions(facet, given, mode), row) <==> FacetOk(given, mode, Linked(row, facet))
  {
    assert FacetConditions(facet, given, mode) == [];
    FacetOkOfBlank(given, mode, Linked(row, facet));
  }

  lemma FacetConditionsOfAnd(facet: Facet, given: Option<seq<string>>, mode: Option<FilterMode>, row: FullRow)
    requires NormalizeNames(given.GetOr([])) != [] && mode.GetOr(And) == And
    ensures HoldsAll(FacetConditions(facet, given, mode), row) <==> FacetOk(given, mode, Linked(row, facet))
  {
    var ns := given.GetOr([]);
    assert FacetConditions(facet, given, mode) == AndConditions(facet, NormalizeNames(ns));
    AndMeaning(facet, ns, row);
    FacetOkAnd(given, mode, Linked(row, facet));
  }

  lemma FacetConditionsOfOr(facet: Facet, given: Option<seq<string>>, mode: Option<FilterMode>, row: FullRow)
    requires NormalizeNames(given.GetOr([])) != [] && mode.GetOr(And) != And
    ensures HoldsAll(FacetConditions(facet, given, mode), row) <==> FacetOk(given, mode, Linked(row, facet))
  {
    var ns := given.GetOr([]);
    var c := AnyOf(facet, NormalizeNames(ns));
    assert FacetConditions(facet, given, mode) == [c];
    assert [c][0] == c;
    assert HoldsAll([c], row) <==> Holds(c, row);
    OrMeaning(facet, ns, row);
    FacetOkOr(given, mode, Linked(row, facet));
  }

  /** Blank names ask nothing, in either mode. */
  lemma FacetOkOfBlank(given: Option<seq<string>>, mode: Option<FilterMode>, have: seq<string>)
    requires NormalizeNames(given.GetOr([])) == []
    ensures FacetOk(given, mode, have)
  {
    NormalizeNamesEmpty(given.GetOr([]));
    NoneWanted(given.GetOr([]));
  }

  /** AND mode: every wanted name is linked. */
  lemma FacetOkAnd(given: Option<seq<string>>, mode: Option<FilterMode>, have: seq<string>)
    requires mode.GetOr(And) == And
    ensures FacetOk(given, mode, have) <==> forall x :: Wanted(given.GetOr([]), x) ==> x in have
  {
  }

  /** OR mode with some real name: some wanted name is linked. */
  lemma FacetOkOr(given: Option<seq<string>>, mode: Option<FilterMode>, have: seq<string>)
    requires NormalizeNames(given.GetOr([])) != [] && mode.GetOr(And) != And
    ensures FacetOk(given, mode, have) <==> exists x :: Wanted(given.GetOr([]), x) && x in have
  {
    NormalizeNamesEmpty(given.GetOr([]));
  }

  lemma BaseMeaning(f: Filters, row: FullRow)
    ensures HoldsAll(BaseConditions(f), row)
            <==> (row.post.kind == LeetCodeType
                  && (f.difficulty.Some? ==> row.meta.Some? && row.meta.value.difficulty == f.difficulty.value))
  {
    var a := BaseConditions(f);
    assert Holds(a[0], row) <==> row.post.kind == LeetCodeType;
    if f.difficulty.Some? {
      assert |a| == 2 && a[1] == DifficultyIs(f.difficulty.value);
    }
  }

  /**
   * The `where` object selects exactly the LEETCODE notes that pass every
   * active clause: the difficulty by equality on the meta row (so a note
   * without one never matches), and each facet by its rule.
   */
  lemma BuildListWhereMeaning(f: Filters, row: FullRow)
    ensures Eval(BuildListWhere(f), row) <==> MatchesFilters(f, row)
  {
    var a := BaseConditions(f);
    var t := FacetConditions(TagFacet, f.tags, f.tagsMode);
    var u := FacetConditions(SourceFacet, f.sources, f.sourcesMode);
    HoldsAllAppend(a + t, u, row);
    HoldsAllAppend(a, t, row);
    FacetConditionsMeaning(TagFacet, f.tags, f.tagsMode, row);
    FacetConditionsMeaning(SourceFacet, f.sources, f.sourcesMode, row);
    BaseMeaning(f, row);
    var cs := Conditions(f);
    if |cs| == 1 {
      assert HoldsAll(cs, row) <==> Holds(cs[0], row);
    }
  }

  /** With no difficulty, tags or sources, the filter keeps exactly the LEETCODE notes. */
  lemma EmptyFiltersKeepLeetCode(row: FullRow)
    ensures Eval(BuildListWhere(Filters(None, None, None, None, None)), row) <==> row.post.kind == LeetCodeType
  {
    BuildListWhereMeaning(Filters(None, None, None, None, None), row);
  }

  // ---------- buildLeetCodeListQuery ----------

  datatype SortKey = UpdatedAt | CreatedAt | Title
  datatype SortOrder = Asc | Desc

  /** `LeetCodeListParams`. */
  datatype ListParams = ListParams(
    tags: Option<seq<string>>, sources: Option<seq<string>>, mode: Option<FilterMode>,
    difficulty: Option<Difficulty>, q: Option<string>, sort: Option<SortKey>, order: Option<SortOrder>)

  function ModeName(m: FilterMode): string {
    match m
    case And => "and"
    case Or => "or"
  }

  function DifficultyName(d: Difficulty): string {
    match d
    case EASY => "EASY"
    case MEDIUM => "MEDIUM"
    case HARD => "HARD"
  }

  /** The difficulty a string names, as `z.enum(['EASY', 'MEDIUM', 'HARD'])` and the list page accept it. */
  function DifficultyFromName(s: string): (r: Option<Difficulty>)
    ensures r.Some? ==> DifficultyName(r.value) == s
  {
    if s == "EASY" then Some(EASY) else if s == "MEDIUM" then Some(MEDIUM) else if s == "HARD" then Some(HARD) else None
  }

  /** Each name reads back as its difficulty. */
  lemma DifficultyNameRoundTrip(d: Difficulty)
    ensures DifficultyFromName(DifficultyName(d)) == Some(d)
  {
    assert "EASY"[0] != "MEDIUM"[0] && "EASY"[0] != "HARD"[0] && "MEDIUM"[0] != "HARD"[0];
  }

  function SortName(k: SortKey): string {
    match k
    case UpdatedAt => "updatedAt"
    case CreatedAt => "createdAt"
    case Title => "title"
  }

  function OrderName(o: SortOrder): string {
    match o
    case Asc => "asc"
    case Desc => "desc"
  }

  /** `q.set(key, value)` only when present. */
  function SetIf(present: bool, key: string, value: string): seq<(string, string)> {
    if present then [(key, value)] else []
  }

  /** The seven optional pairs of the query, in order. */
  function Pairs7(ct: bool, vt: string, cs: bool, vs: string, cm: bool, vm: string, cd: bool, vd: string,
                  cq: bool, vq: string, cso: bool, vso: string, co: bool, vo: string): seq<(string, string)> {
    SetIf(ct, "tags", vt) + (SetIf(cs, "sources", vs) + (SetIf(cm, "mode", vm) + (SetIf(cd, "difficulty", vd)
    + (SetIf(cq, "q", vq) + (SetIf(cso, "sort", vso) + SetIf(co, "order", vo))))))
  }

  /** The value written for each key, read only when that key is set. */
  function TagsText(p: ListParams): string { if p.tags.Some? then Join(p.tags.value, ',') else "" }
  function SourcesText(p: ListParams): string { if p.sources.Some? then Join(p.sources.value, ',') else "" }
  function ModeText(p: ListParams): string { if p.mode.Some? then ModeName(p.mode.value) else "" }
  function DifficultyText(p: ListParams): string { if p.difficulty.Some? then DifficultyName(p.difficulty.value) else "" }
  function SearchText(p: ListParams): string { if p.q.Some? then Trim(p.q.value) else "" }
  function SortText(p: ListParams): string { if p.sort.Some? then SortName(p.sort.value) else "" }
  function OrderText(p: ListParams): string { if p.order.Some? then OrderName(p.order.value) else "" }

  /** The parameters `buildLeetCodeListQuery` sets, in order. */
  function ListQueryPairs(p: ListParams): seq<(string, string)> {
    Pairs7(p.tags.Some? && |p.tags.value| > 0, TagsText(p),
           p.sources.Some? && |p.sources.value| > 0, SourcesText(p),
           p.mode.Some?, ModeText(p),
           p.difficulty.Some?, DifficultyText(p),
           p.q.Some? && !IsBlank(p.q.value), SearchText(p),
           p.sort.Some?, SortText(p),
           p.order.Some?, OrderText(p))
  }

  function JoinPairs(ps: seq<(string, string)>): string
    requires ps != []
  {
    if |ps| == 1 then ps[0].0 + "=" + ps[0].1 else ps[0].0 + "=" + ps[0].1 + "&" + JoinPairs(ps[1..])
  }

  /** `buildLeetCodeListQuery(params)`: "?k=v&..." or "" when nothing is set. */
  function BuildLeetCodeListQuery(p: ListParams): (r: string)
    ensures r == "" <==> ListQueryPairs(p) == []
    ensures r != "" ==> r[0] == '?'
  {
    var ps := ListQueryPairs(p);
    if ps == [] then "" else "?" + JoinPairs(ps)
  }

  /** The value a query gives a key, as the page's `searchParams` reads it. */
  function Param(ps: seq<(string, string)>, key: string): Option<string> {
    if ps == [] then None else if ps[0].0 == key then Some(ps[0].1) else Param(ps[1..], key)
  }
}
