/**
 * app/leetcode/actions.ts: the server actions behind the LeetCode-note forms.
 * A form is the map `formDataToObject` builds (file entries dropped), and
 * `JSON.parse` is the parameter `parse`, which gives None where it throws.
 * Post ids are numbers in the store; in forms and in the check-in call they
 * are strings, and the string of post n is `NatToString(n)`.
 */
module LeetCodeActions {
  import opened Wrappers
  import opened Text
  import opened Seqs
  import opened Dates
  import opened LeetCodeContent
  import opened LeetCodeService

  // ---------- slugify ----------

  /** `[a-z0-9-]`. */
  predicate IsSlugChar(c: char) {
    IsLowerAlpha(c) || IsDigit(c) || c == '-'
  }

  predicate IsDash(c: char) { c == '-' }

  predicate AllSlugChars(s: string) {
    forall i :: 0 <= i < |s| ==> IsSlugChar(s[i])
  }

  /** No "--" in s. */
  predicate NoDoubleDash(s: string) {
    forall i :: 0 <= i < |s| - 1 ==> !(s[i] == '-' && s[i + 1] == '-')
  }

  /** A note slug: non-empty, over `[a-z0-9-]`, no "--", no dash at either end. */
  predicate IsSlug(s: string) {
    |s| > 0 && s[0] != '-' && s[|s| - 1] != '-' && AllSlugChars(s) && NoDoubleDash(s)
  }

  lemma SliceKeepsSlugFacts(s: string, i: int, j: int)
    requires 0 <= i <= j <= |s| && AllSlugChars(s) && NoDoubleDash(s)
    ensures AllSlugChars(s[i..j]) && NoDoubleDash(s[i..j])
  {
    var t := s[i..j];
    forall k | 0 <= k < |t| - 1
      ensures !(t[k] == '-' && t[k + 1] == '-')
    {
      assert t[k] == s[i + k] && t[k + 1] == s[i + k + 1];
    }
  }

  /** Trimmed, lower-cased, white-space runs made dashes, characters outside `[a-z0-9-]` dropped. */
  function SlugChars(title: string): (r: string)
    ensures AllSlugChars(r)
  {
    RemoveChars(ReplaceRuns(Lower(Trim(title)), IsSpace, '-'), c => !IsSlugChar(c))
  }

  /** `.replace(/-+/g, '-')` on top of SlugChars. */
  function Dashed(title: string): (r: string)
    ensures AllSlugChars(r) && NoDoubleDash(r)
  {
    var s := SlugChars(title);
    var r := ReplaceRuns(s, IsDash, '-');
    assert AllSlugChars(r) by {
      forall i | 0 <= i < |r|
        ensures IsSlugChar(r[i])
      {
        assert r[i] in r;
      }
    }
    r
  }

  /** `.replace(/^-|-$/g, '')`: one leading and one trailing dash removed. */
  function DropEndDashes(s: string): (r: string)
    requires AllSlugChars(s) && NoDoubleDash(s)
    ensures AllSlugChars(r) && NoDoubleDash(r)
    ensures r == [] || (r[0] != '-' && r[|r| - 1] != '-')
    ensures s == [] ==> r == []
  {
    var i := if |s| > 0 && s[0] == '-' then 1 else 0;
    var j := if |s| > i && s[|s| - 1] == '-' then |s| - 1 else |s|;
    SliceKeepsSlugFacts(s, i, j);
    if |s| >= 2 then
      assert !(s[0] == '-' && s[1] == '-');
      assert !(s[|s| - 2] == '-' && s[|s| - 1] == '-');
      s[i..j]
    else s[i..j]
  }

  /** Dashed, then the end dashes dropped. */
  function SlugBody(title: string): (r: string)
    ensures AllSlugChars(r) && NoDoubleDash(r)
    ensures r == [] || (r[0] != '-' && r[|r| - 1] != '-')
  {
    DropEndDashes(Dashed(title))
  }

  /** `slugify(title)`, with the fallback "post". */
  function Slugify(title: string): (r: string)
    ensures IsSlug(r)
    ensures SlugBody(title) == [] ==> r == "post"
  {
    var body := SlugBody(title);
    if body == [] then "post" else body
  }

  /** A slug is its own slug. */
  lemma SlugOfSlug(s: string)
    requires IsSlug(s)
    ensures Slugify(s) == s
  {
    SlugCharsOfSlug(s);
    DashedOfSlug(s);
    SlugOfDashed(s);
  }

  lemma SlugOfDashed(s: string)
    requires Dashed(s) == s && s != [] && s[0] != '-' && s[|s| - 1] != '-'
    ensures Slugify(s) == s
  {
    assert s[0..|s|] == s;
  }

  lemma DashedOfSlug(s: string)
    requires SlugChars(s) == s && NoDoubleDash(s)
    ensures Dashed(s) == s
  {
    ReplaceRunsOfSingles(s, IsDash, '-');
  }

  lemma SlugCharsOfSlug(s: string)
    requires IsSlug(s)
    ensures SlugChars(s) == s
  {
    assert forall i :: 0 <= i < |s| ==> !IsSpace(s[i]) by {
      forall i | 0 <= i < |s|
        ensures !IsSpace(s[i])
      {
        assert IsSlugChar(s[i]);
      }
    }
    TrimOfTrimmed(s);
    assert Lower(s) == s by {
      forall i | 0 <= i < |s|
        ensures Lower(s)[i] == s[i]
      {
        LowerAt(s, i);
        assert IsSlugChar(s[i]);
      }
    }
    ReplaceRunsNoop(s, IsSpace, '-');
    RemoveCharsNoop(s, c => !IsSlugChar(c));
  }

  /** `slugify(slugify(t)) == slugify(t)`. */
  lemma SlugifyIdempotent(title: string)
    ensures Slugify(Slugify(title)) == Slugify(title)
  {
    SlugOfSlug(Slugify(title));
  }

  /** A blank title falls back to "post". */
  lemma SlugifyBlank(title: string)
    requires IsBlank(title)
    ensures Slugify(title) == "post"
  {
    TrimEmptyIff(title);
    assert Lower(Trim(title)) == [];
    assert ReplaceRuns([], IsSpace, '-') == [];
    assert RemoveChars([], c => !IsSlugChar(c)) == [];
    assert ReplaceRuns([], IsDash, '-') == [];
  }

  // ---------- findAvailableSlug ----------

  /** `${baseSlug}-${n}`. */
  function Suffixed(base: string, n: nat): (r: string)
    ensures |r| > |base| && r[..|base|] == base
  {
    base + "-" + NatToString(n)
  }

  lemma SuffixedInjective(base: string, a: nat, b: nat)
    requires Suffixed(base, a) == Suffixed(base, b)
    ensures a == b
  {
    assert Suffixed(base, a)[|base| + 1..] == NatToString(a);
    assert Suffixed(base, b)[|base| + 1..] == NatToString(b);
    NatToStringInjective(a, b);
  }

  /**
   * The slugs `getLeetCodeNoteBySlug` finds and `findAvailableSlug` treats as
   * taken: those of LeetCode posts other than the excluded one.
   */
  function TakenSlugs(posts: map<nat, Post>, exclude: Option<nat>): set<string> {
    set id | id in posts && posts[id].kind == LeetCodeType && Some(id) != exclude :: posts[id].slug
  }

  /** No two LeetCode posts share a slug (a note's slug is unique). */
  ghost predicate UniqueSlugs(posts: map<nat, Post>) {
    forall a, b ::
      (a in posts && b in posts && posts[a].kind == LeetCodeType && posts[b].kind == LeetCodeType
       && posts[a].slug == posts[b].slug) ==> a == b
  }

  /**
   * What `findAvailableSlug(base)` returns: base itself when it is free,
   * otherwise `base-n` for the smallest free `n >= 2`.
   */
  ghost predicate FirstFreeSlug(base: string, used: set<string>, slug: string) {
    slug !in used
    && (base !in used ==> slug == base)
    && (base in used ==> exists n: nat :: n >= 2 && slug == Suffixed(base, n)
                                         && forall m: nat :: 2 <= m < n ==> Suffixed(base, m) in used)
  }

  /** The slug tried when the counter is n: base first, then `base-2`, `base-3`, ... */
  function Candidate(base: string, n: nat): string {
    if n <= 2 then base else Suffixed(base, n - 1)
  }

  /** The slugs tried before the counter reached n. */
  ghost function Tried(base: string, n: nat): set<string>
    decreases n
  {
    if n <= 2 then {} else Tried(base, n - 1) + {Candidate(base, n - 1)}
  }

  /** No slug is tried twice. */
  lemma {:induction false} CandidateNotTried(base: string, n: nat)
    requires n >= 2
    ensures Candidate(base, n) !in Tried(base, n)
    decreases n
  {
    if n > 2 {
      CandidateNotTried(base, n - 1);
      CandidatesDiffer(base, n - 1, n);
      CandidateNewer(base, n - 1, n);
    }
  }

  /** Candidates at different counters differ. */
  lemma CandidatesDiffer(base: string, k: nat, n: nat)
    requires 2 <= k < n
    ensures Candidate(base, k) != Candidate(base, n)
  {
    if k > 2 && Candidate(base, k) == Candidate(base, n) {
      SuffixedInjective(base, k - 1, n - 1);
    }
  }

  /** Candidate n differs from everything tried before counter k, for k <= n. */
  lemma {:induction false} CandidateNewer(base: string, k: nat, n: nat)
    requires 2 <= k <= n
    ensures Candidate(base, n) !in Tried(base, k)
    decreases k
  {
    if k > 2 {
      CandidateNewer(base, k - 1, n);
      CandidatesDiffer(base, k - 1, n);
    }
  }

  /**
   * `findAvailableSlug(baseSlug, excludePostId)` with `used` the slugs
   * taken by other notes; it stops because only finitely many are taken.
   */
  method FindAvailableSlug(base: string, used: set<string>) returns (slug: string)
    ensures FirstFreeSlug(base, used, slug)
  {
    slug := base;
    var n: nat := 2;
    while slug in used
      invariant n >= 2 && slug == Candidate(base, n)
      invariant n > 2 ==> base in used
      invariant forall m: nat :: 2 <= m < n - 1 ==> Suffixed(base, m) in used
      invariant Tried(base, n) <= used
      decreases |used - Tried(base, n)|
    {
      CandidateNotTried(base, n);
      assert used - Tried(base, n + 1) < used - Tried(base, n);
      slug := Suffixed(base, n);
      n := n + 1;
    }
  }

  // ---------- parseJsonArray ----------

  const MaxArrayItems := 20
  const MaxItemLength := 50
  const ArrayMessage := "须为合法 JSON 数组"
  const ContentMessage := "contentJson 须为合法 JSON"

  /** `String(x)` for a JSON value; `null` inside an array joins as "". */
  function JsString(j: Json): string
    decreases j
  {
    match j
    case JNull => "null"
    case JBool(b) => if b then "true" else "false"
    case JNum(n) => IntToString(n)
    case JStr(s) => s
    case JArr(items) =>
      Join(seq(|items|, i requires 0 <= i < |items| => if items[i].JNull? then "" else JsString(items[i])), ',')
    case JObj(_) => "[object Object]"
  }

  /** `raw.map((x) => String(x))`. */
  function Strings(items: seq<Json>): (r: seq<string>)
    ensures |r| == |items| && forall i :: 0 <= i < |items| ==> r[i] == JsString(items[i])
  {
    seq(|items|, i requires 0 <= i < |items| => JsString(items[i]))
  }

  /** The array items of `JSON.parse(s ?? '[]')`, or None where it throws or gives no array. */
  function ParsedArray(s: Option<string>, parse: string -> Option<Json>): Option<seq<Json>> {
    var raw := if s.None? then Some(JArr([])) else parse(s.value);
    if raw.Some? && raw.value.JArr? then Some(raw.value.items) else None
  }

  /** Stringified, trimmed, blank ones dropped, then `Array.from(new Set(...))`. */
  function ArrayNames(items: seq<Json>): seq<string> {
    Dedupe(NormalizeNames(Strings(items)))
  }

  /** `parseJsonArray(s)`: the names of the parsed array, or the thrown message. */
  function ParseJsonArray(s: Option<string>, parse: string -> Option<Json>): (r: Result<seq<string>, string>)
    ensures s.None? ==> r == Ok([])
    ensures r.Err? <==> ParsedArray(s, parse).None?
    ensures r.Err? ==> r.error == ArrayMessage
    ensures r.Ok? ==> r.value == ArrayNames(ParsedArray(s, parse).value)
  {
    match ParsedArray(s, parse)
    case None => Err(ArrayMessage)
    case Some(items) => Ok(ArrayNames(items))
  }

  /** A field that does not hold JSON, or holds JSON that is no array, is rejected. */
  lemma ParseJsonArrayRejects(s: string, parse: string -> Option<Json>)
    ensures ParseJsonArray(Some(s), parse).Err? <==> parse(s).None? || !parse(s).value.JArr?
  {
  }

  /**
   * The names are the items stringified and trimmed, blank ones dropped and
   * only the first occurrence of each kept, in their original order.
   */
  lemma ArrayNamesMeaning(items: seq<Json>)
    ensures var r := ArrayNames(items);
            Distinct(r)
            && (forall k :: 0 <= k < |r| ==> r[k] != "" && IsTrimmed(r[k]))
            && IsSubsequence(r, NormalizeNames(Strings(items)))
            && NormalizeNames(r) == r
  {
    var norm := NormalizeNames(Strings(items));
    DedupeMeaning(norm);
    DedupeSubsequence(norm);
    forall k | 0 <= k < |Dedupe(norm)|
      ensures Dedupe(norm)[k] in norm
    {
      assert Dedupe(norm)[k] in Dedupe(norm);
    }
    NormalizeNamesOfNormal(Dedupe(norm));
  }

  /** The names keep the order in which they first occur among the trimmed, non-blank items. */
  lemma ArrayNamesOrder(items: seq<Json>)
    ensures var norm, r := NormalizeNames(Strings(items)), ArrayNames(items);
            (forall k :: 0 <= k < |r| ==> r[k] in norm)
            && forall i, j :: 0 <= i < j < |r| ==> FirstIndex(norm, r[i]) < FirstIndex(norm, r[j])
  {
    DedupeFirstOrder(NormalizeNames(Strings(items)));
  }

  /** A name survives exactly when it is non-empty and some item stringifies and trims to it. */
  lemma ArrayNamesMembers(items: seq<Json>, x: string)
    ensures x in ArrayNames(items) <==> x != "" && exists i :: 0 <= i < |items| && Trim(JsString(items[i])) == x
  {
    var strings := Strings(items);
    DedupeMeaning(NormalizeNames(strings));
    NormalizeNamesMembers(strings, x);
    TrimsToAt(strings, x);
    if exists i :: 0 <= i < |strings| && Trim(strings[i]) == x {
      var i :| 0 <= i < |strings| && Trim(strings[i]) == x;
      assert Trim(JsString(items[i])) == x;
    }
  }

  /** A parsed name list is de-duplicated and already normalised, so the store links exactly those names. */
  lemma ParsedNamesAreNormal(s: Option<string>, parse: string -> Option<Json>)
    ensures ParseJsonArray(s, parse).Ok? ==>
              Distinct(ParseJsonArray(s, parse).value)
              && NormalizeNames(ParseJsonArray(s, parse).value) == ParseJsonArray(s, parse).value
  {
    if ParseJsonArray(s, parse).Ok? {
      ArrayNamesMeaning(ParsedArray(s, parse).value);
    }
  }

  /** `jsonArrayPipe`: at most 20 items, each at most 50 characters. */
  predicate ItemsOk(xs: seq<string>) {
    |xs| <= MaxArrayItems && forall i :: 0 <= i < |xs| ==> |xs[i]| <= MaxItemLength
  }

  // ---------- the schemas ----------

  /** The fields `formDataToObject` collects. */
  type Form = map<string, string>

  function Field(form: Form, key: string): Option<string> {
    if key in form then Some(form[key]) else None
  }

  /** A schema failure: a message thrown by a transform, or zod issues (their texts are not modelled). */
  datatype SchemaError = Thrown(message: string) | Issues

  /** The `contentJson` transform: absent or blank is None, otherwise the parsed value. */
  function ParseContent(s: Option<string>, parse: string -> Option<Json>): (r: Result<Option<Json>, SchemaError>)
    ensures r.Ok? && r.value.None? <==> s.None? || IsBlank(s.value)
    ensures r.Err? <==> s.Some? && !IsBlank(s.value) && parse(s.value).None?
    ensures r.Err? ==> r.error == Thrown(ContentMessage)
    ensures r.Ok? && r.value.Some? ==> r.value == parse(s.value)
  {
    TrimEmptyIffBlank(s);
    if s.None? || Trim(s.value) == [] then Ok(None)
    else if parse(s.value).None? then Err(Thrown(ContentMessage))
    else Ok(parse(s.value))
  }

  /** The `contentJson` field is absent, blank or JSON, so its transform does not throw. */
  predicate ContentParses(s: Option<string>, parse: string -> Option<Json>) {
    s.None? || IsBlank(s.value) || parse(s.value).Some?
  }

  /** `z.union([z.literal('on'), z.literal('')]).optional()`: None rejects, Some(None) is absent. */
  function ParseCheckbox(s: Option<string>): (r: Option<Option<bool>>)
    ensures r.None? <==> s.Some? && s.value != "on" && s.value != ""
    ensures r == Some(None) <==> s.None?
    ensures r.Some? && r.value.Some? ==> (r.value.value <==> s == Some("on"))
  {
    match s
    case None => Some(None)
    case Some(v) => if v == "on" then Some(Some(true)) else if v == "" then Some(Some(false)) else None
  }

  datatype CreateForm = CreateForm(
    title: string, content: Json, tags: seq<string>, difficulty: Difficulty,
    sources: seq<string>, independent: bool, problemUrl: Option<string>)

  /** The checks zod makes on the create form once the transforms have run. */
  predicate CreateAccepts(form: Form, tags: seq<string>, sources: seq<string>) {
    "title" in form && |form["title"]| >= 1
    && ItemsOk(tags)
    && "difficulty" in form && DifficultyFromName(form["difficulty"]).Some?
    && ItemsOk(sources) && |sources| >= 1
    && ParseCheckbox(Field(form, "independent")).Some?
  }

  /**
   * `createSchema.parse(raw)`. A transform that throws aborts the parse with
   * its message, the fields taken in schema order; otherwise any failed
   * check gives zod issues.
   */
  function CreateSchema(form: Form, parse: string -> Option<Json>): (r: Result<CreateForm, SchemaError>)
    ensures r.Ok? ==> |r.value.title| >= 1 && Field(form, "title") == Some(r.value.title)
    ensures r.Ok? ==> ItemsOk(r.value.tags) && ItemsOk(r.value.sources) && |r.value.sources| >= 1
    ensures r.Ok? ==> Field(form, "difficulty") == Some(DifficultyName(r.value.difficulty))
    ensures r.Ok? ==> (r.value.independent <==> Field(form, "independent") == Some("on"))
    ensures r.Ok? ==> r.value.problemUrl == UrlOrNull(Field(form, "problemUrl"))
    ensures r.Ok? && (Field(form, "contentJson").None? || IsBlank(form["contentJson"])) ==> r.value.content == JObj(map[])
    ensures r.Ok? && Field(form, "tags").None? ==> r.value.tags == []
    ensures r.Ok? ==> Distinct(r.value.tags) && NormalizeNames(r.value.tags) == r.value.tags
    ensures r.Ok? ==> Distinct(r.value.sources) && NormalizeNames(r.value.sources) == r.value.sources
    ensures r.Err? && r.error.Thrown? ==> r.error.message in {ContentMessage, ArrayMessage}
  {
    ParsedNamesAreNormal(Field(form, "tags"), parse);
    ParsedNamesAreNormal(Field(form, "sources"), parse);
    var content := ParseContent(Field(form, "contentJson"), parse);
    var tags := ParseJsonArray(Field(form, "tags"), parse);
    var sources := ParseJsonArray(Field(form, "sources"), parse);
    if content.Err? then Err(content.error)
    else if tags.Err? then Err(Thrown(tags.error))
    else if sources.Err? then Err(Thrown(sources.error))
    else if !CreateAccepts(form, tags.value, sources.value) then Err(Issues)
    else
      Ok(CreateForm(form["title"], content.value.GetOr(JObj(map[])), tags.value,
                    DifficultyFromName(form["difficulty"]).value, sources.value,
                    ParseCheckbox(Field(form, "independent")).value == Some(true),
                    UrlOrNull(Field(form, "problemUrl"))))
  }

  /**
   * A create form is accepted exactly when no transform throws and the checks hold of
   * the parsed lists; a transform throws exactly when the content or one of the
   * two lists is not valid JSON of the right shape, the content being read first.
   */
  lemma CreateSchemaAccepts(form: Form, parse: string -> Option<Json>)
    ensures var r, tags, sources := CreateSchema(form, parse), ParsedArray(Field(form, "tags"), parse), ParsedArray(Field(form, "sources"), parse);
            r.Ok? <==> ContentParses(Field(form, "contentJson"), parse) && tags.Some? && sources.Some?
                       && CreateAccepts(form, ArrayNames(tags.value), ArrayNames(sources.value))
    ensures var r := CreateSchema(form, parse);
            r.Err? && r.error.Thrown? <==>
              !ContentParses(Field(form, "contentJson"), parse)
              || ParsedArray(Field(form, "tags"), parse).None? || ParsedArray(Field(form, "sources"), parse).None?
    ensures !ContentParses(Field(form, "contentJson"), parse) ==> CreateSchema(form, parse) == Err(Thrown(ContentMessage))
  {
  }

  datatype UpdateForm = UpdateForm(
    id: string, title: Option<string>, content: Option<Json>, tags: seq<string>,
    difficulty: Option<Difficulty>, sources: seq<string>,
    independent: Option<bool>, problemUrl: Option<string>)

  /** The checks zod makes on the update form once the transforms have run. */
  predicate UpdateAccepts(form: Form, tags: seq<string>, sources: seq<string>) {
    "id" in form && |form["id"]| >= 1
    && ("title" in form ==> |form["title"]| >= 1)
    && ItemsOk(tags)
    && ("difficulty" in form ==> DifficultyFromName(form["difficulty"]).Some?)
    && ItemsOk(sources)
    && ParseCheckbox(Field(form, "independent")).Some?
  }

  /** `updateSchema.parse(raw)`; None stands for a field left `undefined`. */
  function UpdateSchema(form: Form, parse: string -> Option<Json>): (r: Result<UpdateForm, SchemaError>)
    ensures r.Ok? ==> |r.value.id| >= 1 && Field(form, "id") == Some(r.value.id)
    ensures r.Ok? ==> r.value.title == Field(form, "title") && (r.value.title.Some? ==> |r.value.title.value| >= 1)
    ensures r.Ok? ==> ItemsOk(r.value.tags) && ItemsOk(r.value.sources)
    ensures r.Ok? && Field(form, "tags").None? ==> r.value.tags == []
    ensures r.Ok? && Field(form, "sources").None? ==> r.value.sources == []
    ensures r.Ok? ==> (r.value.content.None? <==> Field(form, "contentJson").None? || IsBlank(form["contentJson"]))
    ensures r.Ok? ==> (r.value.difficulty.None? <==> "difficulty" !in form)
    ensures r.Ok? && r.value.difficulty.Some? ==> Field(form, "difficulty") == Some(DifficultyName(r.value.difficulty.value))
    ensures r.Ok? ==> (r.value.independent.None? <==> "independent" !in form)
    ensures r.Ok? && r.value.independent.Some? ==> (r.value.independent.value <==> form["independent"] == "on")
    ensures r.Ok? ==> (r.value.problemUrl.None? <==> Field(form, "problemUrl").None? || IsBlank(form["problemUrl"]))
    ensures r.Ok? && r.value.problemUrl.Some? ==> r.value.problemUrl.value == Trim(form["problemUrl"])
    ensures r.Ok? && r.value.problemUrl.Some? ==> r.value.problemUrl.value != "" && IsTrimmed(r.value.problemUrl.value)
    ensures r.Ok? ==> Distinct(r.value.tags) && NormalizeNames(r.value.tags) == r.value.tags
    ensures r.Ok? ==> Distinct(r.value.sources) && NormalizeNames(r.value.sources) == r.value.sources
    ensures r.Err? && r.error.Thrown? ==> r.error.message in {ContentMessage, ArrayMessage}
  {
    ParsedNamesAreNormal(Field(form, "tags"), parse);
    ParsedNamesAreNormal(Field(form, "sources"), parse);
    var content := ParseContent(Field(form, "contentJson"), parse);
    var tags := ParseJsonArray(Field(form, "tags"), parse);
    var sources := ParseJsonArray(Field(form, "sources"), parse);
    if content.Err? then Err(content.error)
    else if tags.Err? then Err(Thrown(tags.error))
    else if sources.Err? then Err(Thrown(sources.error))
    else if !UpdateAccepts(form, tags.value, sources.value) then Err(Issues)
    else
      Ok(UpdateForm(form["id"], Field(form, "title"), content.value, tags.value,
                    if "difficulty" in form then DifficultyFromName(form["difficulty"]) else None,
                    sources.value, ParseCheckbox(Field(form, "independent")).value,
                    UrlOrNull(Field(form, "problemUrl"))))
  }

  /**
   * An update form is accepted exactly when no transform throws and the checks hold
   * of the parsed lists; a transform throws exactly when the content or one of
   * the two lists is not valid JSON of the right shape, the content being read first.
   */
  lemma UpdateSchemaAccepts(form: Form, parse: string -> Option<Json>)
    ensures var r, tags, sources := UpdateSchema(form, parse), ParsedArray(Field(form, "tags"), parse), ParsedArray(Field(form, "sources"), parse);
            r.Ok? <==> ContentParses(Field(form, "contentJson"), parse) && tags.Some? && sources.Some?
                       && UpdateAccepts(form, ArrayNames(tags.value), ArrayNames(sources.value))
    ensures var r := UpdateSchema(form, parse);
            r.Err? && r.error.Thrown? <==>
              !ContentParses(Field(form, "contentJson"), parse)
              || ParsedArray(Field(form, "tags"), parse).None? || ParsedArray(Field(form, "sources"), parse).None?
    ensures !ContentParses(Field(form, "contentJson"), parse) ==> UpdateSchema(form, parse) == Err(Thrown(ContentMessage))
  {
  }

  // ---------- the actions ----------

  const NotFoundMessage := "笔记不存在"
  const UpdateFailedMessage := "更新失败"
  const RateLimitedMessage := "请勿频繁打卡，请稍后再试"

  /**
   * `ActionResult`: success, a failure with a known message, zod issues, or
   * an error the database threw (its message is not modelled).
   */
  datatype ActionResult =
    | Success(note: NoteDto, redirect: Option<string>)
    | Failure(error: string)
    | Invalid
    | DatabaseError

  function SchemaFailure(e: SchemaError): ActionResult {
    match e
    case Thrown(m) => Failure(m)
    case Issues => Invalid
  }

  /** The post a form's id string names: the number it renders. */
  function PostIdOf(s: string): (r: Option<nat>)
    ensures r.Some? ==> NatToString(r.value) == s
  {
    if AllDigits(s) && NatToString(DecimalValue(s)) == s then Some(DecimalValue(s)) else None
  }

  lemma PostIdOfRendering(n: nat)
    ensures PostIdOf(NatToString(n)) == Some(n)
  {
    DecimalOfNatToString(n);
  }

  /** Writing a post whose slug no other LeetCode post has keeps slugs unique. */
  lemma UniqueAfterWrite(posts: map<nat, Post>, id: nat, p: Post)
    requires UniqueSlugs(posts)
    requires p.kind == LeetCodeType ==> p.slug !in TakenSlugs(posts, Some(id))
    ensures UniqueSlugs(posts[id := p])
  {
    var q := posts[id := p];
    forall a, b | a in q && b in q && q[a].kind == LeetCodeType && q[b].kind == LeetCodeType && q[a].slug == q[b].slug
      ensures a == b
    {
    }
  }

  /** Under unique slugs, a note's own slug is not taken by another note. */
  lemma OwnSlugFree(posts: map<nat, Post>, id: nat)
    requires UniqueSlugs(posts) && id in posts && posts[id].kind == LeetCodeType
    ensures posts[id].slug !in TakenSlugs(posts, Some(id))
  {
  }

  /**
   * `createLeetCodeAction(formData)`: validate, pick the first free slug for
   * the title, create the note and redirect to its page.
   */
  method CreateLeetCodeAction(store: Store, form: Form, parse: string -> Option<Json>, now: Instant)
    returns (r: ActionResult)
    requires store.Valid()
    modifies store, store.tags, store.sources
    ensures store.Valid()
    ensures CreateSchema(form, parse).Err? ==>
              r == SchemaFailure(CreateSchema(form, parse).error)
              && unchanged(store) && unchanged(store.tags) && unchanged(store.sources)
    ensures CreateSchema(form, parse).Ok? ==>
              r.Success? && r.redirect == Some("/leetcode/" + r.note.slug)
              && Created(CreateSchema(form, parse).value, old(store.posts), old(store.nextPost), store.posts, r.note)
              && Some(r.note) == store.NoteById(r.note.id)
    ensures r.Success? ==> SameExcept(old(store.metas), store.metas, r.note.id)
    ensures r.Success? ==> SameExcept(old(store.postTags), store.postTags, r.note.id) && SameExcept(old(store.postSources), store.postSources, r.note.id)
    ensures Keeps(old(store.tags.ids), store.tags.ids) && Keeps(old(store.tags.names), store.tags.names)
    ensures Keeps(old(store.sources.ids), store.sources.ids) && Keeps(old(store.sources.names), store.sources.names)
    ensures store.progress == old(store.progress)
    ensures UniqueSlugs(old(store.posts)) ==> UniqueSlugs(store.posts)
  {
    var parsed := CreateSchema(form, parse);
    if parsed.Err? {
      return SchemaFailure(parsed.error);
    }
    var note := CreateNote(store, parsed.value, now);
    r := Success(note, Some("/leetcode/" + note.slug));
  }

  /**
   * What creating the note of a valid form does: a new LeetCode post under
   * the next id, with the form's title, tags and sources and the first free
   * slug for the title.
   */
  ghost predicate Created(f: CreateForm, before: map<nat, Post>, id: nat, after: map<nat, Post>, note: NoteDto) {
    id !in before && id in after && after.Keys == before.Keys + {id}
    && (forall p :: p in before ==> after[p] == before[p])
    && after[id].kind == LeetCodeType && after[id].slug == note.slug
    && note.id == id && note.title == f.title && note.tags == f.tags && note.sources == f.sources
    && FirstFreeSlug(Slugify(f.title), TakenSlugs(before, None), note.slug)
    && IsSlug(note.slug)
  }

  /** The steps of `createLeetCodeAction` after validation. */
  method CreateNote(store: Store, f: CreateForm, now: Instant) returns (note: NoteDto)
    requires store.Valid()
    requires NormalizeNames(f.tags) == f.tags && NormalizeNames(f.sources) == f.sources
    modifies store, store.tags, store.sources
    ensures store.Valid()
    ensures Created(f, old(store.posts), old(store.nextPost), store.posts, note)
    ensures Some(note) == store.NoteById(note.id)
    ensures SameExcept(old(store.metas), store.metas, note.id)
    ensures SameExcept(old(store.postTags), store.postTags, note.id) && SameExcept(old(store.postSources), store.postSources, note.id)
    ensures Keeps(old(store.tags.ids), store.tags.ids) && Keeps(old(store.tags.names), store.tags.names)
    ensures Keeps(old(store.sources.ids), store.sources.ids) && Keeps(old(store.sources.names), store.sources.names)
    ensures store.progress == old(store.progress)
    ensures UniqueSlugs(old(store.posts)) ==> UniqueSlugs(store.posts)
  {
    var slug := FindAvailableSlug(Slugify(f.title), TakenSlugs(store.posts, None));
    ghost var before := store.posts;
    note := store.CreateLeetCodeNote(
      CreateInput(f.title, slug, f.content, f.tags, f.difficulty, f.sources, Some(f.independent), f.problemUrl), now);
    assert store.IsLeetCode(note.id);
    assert note.id == old(store.nextPost) && note.title == f.title && note.slug == slug;
    FreeSlugIsSlug(Slugify(f.title), TakenSlugs(before, None), slug);
    CreatedFrom(f, before, note.id, store.posts, note, slug, now);
    if UniqueSlugs(before) {
      TakenExcludingFresh(before, old(store.nextPost));
      UniqueAfterWrite(before, old(store.nextPost), store.posts[old(store.nextPost)]);
    }
  }

  lemma CreatedFrom(f: CreateForm, before: map<nat, Post>, id: nat, after: map<nat, Post>, note: NoteDto,
                    slug: string, now: Instant)
    requires id !in before && after == before[id := Post(LeetCodeType, f.title, slug, f.content, now, now)]
    requires note.id == id && note.title == f.title && note.slug == slug
    requires note.tags == f.tags && note.sources == f.sources
    requires FirstFreeSlug(Slugify(f.title), TakenSlugs(before, None), slug) && IsSlug(slug)
    ensures Created(f, before, id, after, note)
  {
  }

  /** Excluding an id that has no post excludes nothing. */
  lemma TakenExcludingFresh(posts: map<nat, Post>, id: nat)
    requires id !in posts
    ensures TakenSlugs(posts, Some(id)) == TakenSlugs(posts, None)
  {
  }

  /** The suffixed form of a slug is a slug too. */
  lemma SuffixedIsSlug(base: string, n: nat)
    requires IsSlug(base)
    ensures IsSlug(Suffixed(base, n))
  {
    var d := NatToString(n);
    var r := Suffixed(base, n);
    assert r == base + ['-'] + d;
    forall i | 0 <= i < |r|
      ensures IsSlugChar(r[i])
    {
      if i < |base| {
        assert r[i] == base[i];
      } else if i > |base| {
        assert r[i] == d[i - |base| - 1];
      }
    }
    forall i | 0 <= i < |r| - 1
      ensures !(r[i] == '-' && r[i + 1] == '-')
    {
      if i + 1 < |base| {
        assert r[i] == base[i] && r[i + 1] == base[i + 1];
      } else if i + 1 == |base| {
        assert r[i] == base[|base| - 1];
      } else {
        assert r[i + 1] == d[i - |base|];
        assert IsDigit(d[i - |base|]);
      }
    }
    assert r[|r| - 1] == d[|d| - 1] && IsDigit(d[|d| - 1]);
  }

  /** The slug findAvailableSlug picks for a slug is a slug. */
  lemma FreeSlugIsSlug(base: string, used: set<string>, slug: string)
    requires IsSlug(base) && FirstFreeSlug(base, used, slug)
    ensures IsSlug(slug)
  {
    if base in used {
      var n: nat :| n >= 2 && slug == Suffixed(base, n) && forall m: nat :: 2 <= m < n ==> Suffixed(base, m) in used;
      SuffixedIsSlug(base, n);
    }
  }

  /** The fields `updateLeetCodeAction` passes on: the supplied ones, plus both lists always. */
  function UpdateInputOf(u: UpdateForm, slug: Option<string>): UpdateInput {
    UpdateInput(u.title, slug, u.content, Some(u.tags), u.difficulty, Some(u.sources), u.independent,
                if u.problemUrl.Some? then Some(u.problemUrl) else None)
  }

  /**
   * What updating note id from a valid form does to the posts and meta rows
   * and what it returns: title and content change only when supplied, the
   * slug moves to the first free slug for a new title, tags and sources
   * become exactly the form's lists, and a problem URL changes only when a
   * non-blank one is supplied.
   */
  ghost predicate UpdatedFrom(u: UpdateForm, id: nat, before: map<nat, Post>, metasBefore: map<nat, Meta>,
                              after: map<nat, Post>, metasAfter: map<nat, Meta>, note: NoteDto) {
    id in before && id in after && after.Keys == before.Keys
    && (forall p :: p in before && p != id ==> after[p] == before[p])
    && after[id].kind == before[id].kind && after[id].createdAt == before[id].createdAt
    && after[id].title == u.title.GetOr(before[id].title)
    && after[id].content == u.content.GetOr(before[id].content)
    && (u.title.None? ==> after[id].slug == before[id].slug)
    && (u.title.Some? ==> FirstFreeSlug(Slugify(u.title.value), TakenSlugs(before, Some(id)), after[id].slug))
    && (id in metasBefore ==>
          id in metasAfter
          && metasAfter[id].problemUrl == (if u.problemUrl.Some? then u.problemUrl else metasBefore[id].problemUrl)
          && metasAfter[id].difficulty == u.difficulty.GetOr(metasBefore[id].difficulty)
          && metasAfter[id].independent == u.independent.GetOr(metasBefore[id].independent))
    && note.id == id && note.title == after[id].title && note.slug == after[id].slug
    && note.tags == u.tags && note.sources == u.sources
  }

  /**
   * `updateLeetCodeAction(formData)`: validate, check that the note exists,
   * move the slug when the title changes, and update.
   */
  method UpdateLeetCodeAction(store: Store, form: Form, parse: string -> Option<Json>, now: Instant)
    returns (r: ActionResult)
    requires store.Valid()
    modifies store, store.tags, store.sources
    ensures store.Valid()
    ensures UpdateSchema(form, parse).Err? ==>
              r == SchemaFailure(UpdateSchema(form, parse).error)
              && unchanged(store) && unchanged(store.tags) && unchanged(store.sources)
    ensures UpdateSchema(form, parse).Ok? && !Names(old(store.posts), UpdateSchema(form, parse).value.id) ==>
              r == Failure(NotFoundMessage)
              && unchanged(store) && unchanged(store.tags) && unchanged(store.sources)
    ensures UpdateSchema(form, parse).Ok? && Names(old(store.posts), UpdateSchema(form, parse).value.id) ==>
              (r.Success? || r == DatabaseError)
              && (r.Success? ==> r.redirect.None? && Some(r.note) == store.NoteById(r.note.id)
                                 && UpdatedFrom(UpdateSchema(form, parse).value, r.note.id, old(store.posts), old(store.metas),
                                                store.posts, store.metas, r.note))
    ensures r.Success? && "tags" !in form ==> r.note.tags == []
    ensures r.Success? && "sources" !in form ==> r.note.sources == []
    ensures UniqueSlugs(old(store.posts)) ==> UniqueSlugs(store.posts)
    ensures UpdateSchema(form, parse).Ok? && Names(old(store.posts), UpdateSchema(form, parse).value.id) ==>
              var id := PostIdOf(UpdateSchema(form, parse).value.id).value;
              SameExcept(old(store.posts), store.posts, id) && SameExcept(old(store.metas), store.metas, id)
              && SameExcept(old(store.postTags), store.postTags, id) && SameExcept(old(store.postSources), store.postSources, id)
              && (r == DatabaseError ==> store.posts == old(store.posts) && store.metas == old(store.metas)
                                         && LinksOf(store.postTags, id) == [] && LinksOf(store.postSources, id) == [])
    ensures Keeps(old(store.tags.ids), store.tags.ids) && Keeps(old(store.tags.names), store.tags.names)
    ensures Keeps(old(store.sources.ids), store.sources.ids) && Keeps(old(store.sources.names), store.sources.names)
    ensures store.progress == old(store.progress)
  {
    var parsed := UpdateSchema(form, parse);
    if parsed.Err? {
      return SchemaFailure(parsed.error);
    }
    var pid := PostIdOf(parsed.value.id);
    if pid.None? || !store.IsLeetCode(pid.value) {
      return Failure(NotFoundMessage);
    }
    r := UpdateNote(store, pid.value, parsed.value, now);
  }

  /** The id string names a LeetCode post. */
  ghost predicate Names(posts: map<nat, Post>, id: string) {
    PostIdOf(id).Some? && PostIdOf(id).value in posts && posts[PostIdOf(id).value].kind == LeetCodeType
  }

  /** The steps of `updateLeetCodeAction` once the note is known to exist. */
  method UpdateNote(store: Store, id: nat, u: UpdateForm, now: Instant) returns (r: ActionResult)
    requires store.Valid() && store.IsLeetCode(id)
    requires NormalizeNames(u.tags) == u.tags && NormalizeNames(u.sources) == u.sources
    requires u.problemUrl.Some? ==> u.problemUrl.value != "" && IsTrimmed(u.problemUrl.value)
    modifies store, store.tags, store.sources
    ensures store.Valid()
    ensures r.Success? || r == DatabaseError
    ensures r.Success? ==> r.redirect.None? && Some(r.note) == store.NoteById(id)
                           && UpdatedFrom(u, id, old(store.posts), old(store.metas), store.posts, store.metas, r.note)
    ensures UniqueSlugs(old(store.posts)) ==> UniqueSlugs(store.posts)
    ensures SameExcept(old(store.posts), store.posts, id) && SameExcept(old(store.metas), store.metas, id)
    ensures SameExcept(old(store.postTags), store.postTags, id) && SameExcept(old(store.postSources), store.postSources, id)
    ensures r == DatabaseError ==> store.posts == old(store.posts) && store.metas == old(store.metas)
                                   && LinksOf(store.postTags, id) == [] && LinksOf(store.postSources, id) == []
    ensures Keeps(old(store.tags.ids), store.tags.ids) && Keeps(old(store.tags.names), store.tags.names)
    ensures Keeps(old(store.sources.ids), store.sources.ids) && Keeps(old(store.sources.names), store.sources.names)
    ensures store.progress == old(store.progress)
  {
    ghost var before := store.posts;
    var slug: Option<string> := None;
    if u.title.Some? {
      var s := FindAvailableSlug(Slugify(u.title.value), TakenSlugs(store.posts, Some(id)));
      slug := Some(s);
    }
    var outcome := store.UpdateLeetCodeNote(id, UpdateInputOf(u, slug), now);
    if outcome.Updated? {
      r := Success(outcome.note, None);
      assert store.IsLeetCode(id);
      if u.problemUrl.Some? {
        TrimOfTrimmed(u.problemUrl.value);
      }
      UpdatedFromStep(u, id, slug, before, old(store.metas), store.posts, store.metas, outcome.note, now);
    } else if outcome.NotFound? {
      r := Failure(UpdateFailedMessage);
    } else {
      r := DatabaseError;
    }
    if UniqueSlugs(before) {
      SlugsUniqueAfterUpdate(before, store.posts, id, UpdateInputOf(u, slug), now);
    }
  }

  /** Updating a note to a free slug, or keeping its own, keeps the slugs unique. */
  lemma SlugsUniqueAfterUpdate(before: map<nat, Post>, after: map<nat, Post>, id: nat, u: UpdateInput, now: Instant)
    requires UniqueSlugs(before) && id in before && before[id].kind == LeetCodeType
    requires after == before || after == before[id := UpdatedPost(before[id], u, now)]
    requires u.slug.Some? ==> u.slug.value !in TakenSlugs(before, Some(id))
    ensures UniqueSlugs(after)
  {
    if after != before {
      if u.slug.None? {
        OwnSlugFree(before, id);
      }
      UniqueAfterWrite(before, id, UpdatedPost(before[id], u, now));
    }
  }

  lemma UpdatedFromStep(u: UpdateForm, id: nat, slug: Option<string>, before: map<nat, Post>, metasBefore: map<nat, Meta>,
                        after: map<nat, Post>, metasAfter: map<nat, Meta>, note: NoteDto, now: Instant)
    requires id in before && after == before[id := UpdatedPost(before[id], UpdateInputOf(u, slug), now)]
    requires UpdatesMeta(UpdateInputOf(u, slug)) ==> id in metasBefore
    requires metasAfter == if UpdatesMeta(UpdateInputOf(u, slug))
                           then metasBefore[id := UpdatedMeta(metasBefore[id], UpdateInputOf(u, slug))]
                           else metasBefore
    requires u.problemUrl.Some? ==> UrlOrNull(u.problemUrl) == u.problemUrl
    requires slug.Some? <==> u.title.Some?
    requires u.title.Some? ==> FirstFreeSlug(Slugify(u.title.value), TakenSlugs(before, Some(id)), slug.value)
    requires note.id == id && note.title == after[id].title && note.slug == after[id].slug
    requires note.tags == u.tags && note.sources == u.sources
    ensures UpdatedFrom(u, id, before, metasBefore, after, metasAfter, note)
  {
  }

  // ---------- check-in ----------

  /** `CHECK_IN_COOLDOWN_MS`. */
  const CooldownMs := 15000
  /** How long `setCheckInDone` keeps an entry. */
  const RetentionMs := 60000
  const MsPerDay := 86400000

  /** `isCheckInRateLimited(postId)` against the map `last`, at time now. */
  predicate RateLimited(last: map<string, int>, id: string, now: int) {
    id in last && now - last[id] < CooldownMs
  }

  /** The entries not older than the cutoff. */
  function Pruned(m: map<string, int>, cutoff: int): (r: map<string, int>)
    ensures forall k :: k in r <==> k in m && m[k] >= cutoff
    ensures forall k :: k in r ==> r[k] == m[k]
  {
    map k | k in m && m[k] >= cutoff :: m[k]
  }

  /** The entries of m outside `pending` that were not old, plus those still pending. */
  function Visited(m: map<string, int>, pending: set<string>, cutoff: int): map<string, int> {
    map k | k in m && (k in pending || m[k] >= cutoff) :: m[k]
  }

  /** The process-wide `lastCheckInByPostId` map. */
  class CheckInLimiter {
    var last: map<string, int>

    constructor ()
      ensures last == map[]
    {
      last := map[];
    }

    /**
     * `setCheckInDone(postId)` at time now: record the check-in, then delete
     * every entry older than one minute, walking a snapshot of the entries.
     */
    method SetCheckInDone(id: string, now: int)
      modifies this
      ensures last == Pruned(old(last)[id := now], now - RetentionMs)
      ensures id in last && last[id] == now
    {
      last := last[id := now];
      var cutoff := now - RetentionMs;
      var entries := last;
      var pending := entries.Keys;
      while pending != {}
        invariant pending <= entries.Keys
        invariant last == Visited(entries, pending, cutoff)
        decreases |pending|
      {
        var k :| k in pending;
        if entries[k] < cutoff {
          last := last - {k};
        }
        pending := pending - {k};
      }
      assert Visited(entries, {}, cutoff) == Pruned(entries, cutoff);
    }
  }

  /** Pruning only drops entries that could no longer rate-limit anything from now on. */
  lemma PruningKeepsVerdicts(m: map<string, int>, now: int, id: string, t: int)
    requires t >= now
    ensures RateLimited(Pruned(m, now - RetentionMs), id, t) == RateLimited(m, id, t)
  {
  }

  /** After a check-in at now, the same note is rate-limited exactly for the next 15 seconds. */
  lemma CooldownAfterCheckIn(m: map<string, int>, id: string, now: int, t: int)
    ensures RateLimited(Pruned(m[id := now], now - RetentionMs), id, t) <==> t - now < CooldownMs
  {
  }

  /** `new Date(todayISO + 'T00:00:00.000Z')`: the start of the UTC day of t. */
  function StartOfUtcDay(t: Instant): (r: Instant)
    ensures r.utc == t.utc && r.ms <= t.ms < r.ms + MsPerDay && r.ms % MsPerDay == 0
  {
    Instant(t.ms / MsPerDay * MsPerDay, t.utc)
  }

  /**
   * `checkInLeetCodeAction(id)` at time now: a rate-limited request changes
   * nothing; an unknown note records no timestamp; only a check-in that
   * happened is recorded.
   */
  method CheckInLeetCodeAction(store: Store, limiter: CheckInLimiter, id: string, now: Instant)
    returns (r: ActionResult)
    requires store.Valid()
    modifies store, limiter
    ensures store.Valid()
    ensures store.posts == old(store.posts) && store.metas == old(store.metas)
            && store.postTags == old(store.postTags) && store.postSources == old(store.postSources)
            && store.nextPost == old(store.nextPost)
    ensures id == "" ==> r == Invalid && unchanged(store) && unchanged(limiter)
    ensures id != "" && RateLimited(old(limiter.last), id, now.ms) ==>
              r == Failure(RateLimitedMessage) && unchanged(store) && unchanged(limiter)
    ensures id != "" && !RateLimited(old(limiter.last), id, now.ms) && !Names(old(store.posts), id) ==>
              r == Failure(NotFoundMessage) && store.progress == old(store.progress) && unchanged(limiter)
    ensures id != "" && !RateLimited(old(limiter.last), id, now.ms) && Names(old(store.posts), id) ==>
              var pid := PostIdOf(id).value;
              r.Success? && r.redirect.None? && Some(r.note) == store.NoteById(pid)
              && store.progress == old(store.progress)[pid := CheckedIn(Lookup(old(store.progress), pid), StartOfUtcDay(now))]
              && limiter.last == Pruned(old(limiter.last)[id := now.ms], now.ms - RetentionMs)
  {
    if id == "" {
      return Invalid;
    }
    if RateLimited(limiter.last, id, now.ms) {
      return Failure(RateLimitedMessage);
    }
    var pid := PostIdOf(id);
    if pid.None? {
      return Failure(NotFoundMessage);
    }
    var note := store.CheckInLeetCode(pid.value, StartOfUtcDay(now));
    if note.None? {
      return Failure(NotFoundMessage);
    }
    limiter.SetCheckInDone(id, now.ms);
    r := Success(note.value, None);
  }
}
