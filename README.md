# PavoBlog core, modelled in Dafny

PavoBlog is a Next.js personal blog with a LeetCode notes tracker. Notes are kept in a database. Each note is a `Post` of type `LEETCODE`, with a meta row (its difficulty, whether it was solved independently, and its problem URL), tags, list sources, and a check-in progress record. Static Markdown articles carry front matter, `#tags` and a table of contents.

This project models the logic of that system and proves properties about it:

- **Notes service and actions.** The notes service (`lib/leetcode.service.ts`) becomes a `Store` class that holds one map per table. The server actions (`app/leetcode/actions.ts`) run on that store: slugs, free-slug search, form schemas, and the check-in rate limiter.
- **List pages.**
  - The LeetCode list page parses its URL parameters, filters, sorts in place, and builds links back to itself.
  - The posts page filters by search text and tags, and builds tag toggle links.
  - The searchable posts list covers highlighting and the tag filter.
- **Components:**
  - the pagination window;
  - the note card's filter links;
  - the two multi-selects;
  - the dashboard heatmap.
- **Admin page.** It parses its page number and formats dates.
- **Content and statistics.**
  - the `#tag` scanners of `lib/extractTags.ts` and `lib/tags.ts`;
  - the table of contents;
  - the search snippet;
  - the plain-text summary of a rich-text document;
  - the article and dashboard statistics.

There is one Dafny module per source file. Shared modules:

- `Wrappers` holds Option and Result.
- `Text` holds the ASCII character classes, trim, split, join, lower-casing and decimal rendering.
- `Seqs` holds name normalisation, `Set`-style de-duplication, toggling and filtering.
- `StrOrder` holds the code-unit order of `Array.prototype.sort()`.
- `Dates` holds calendar dates and their printed forms.
- `Articles` holds the article record.

Source files are written imperatively or as pure expressions, and the model keeps the same style:

- **Imperative code becomes methods with loop invariants**, each proved against a specification function. Examples are the `exec` loops, the pagination builder, the heatmap layout, the statistics counters, the upsert loops, the free-slug loop and the limiter's pruning.
- **Objects whose state changes become classes:** the store, the name tables, the multi-select state and the rate limiter.
- **Pure code becomes functions and lemmas.**

## Model

| member | source | states |
|---|---|---|
| ExtractTags.RunEnd | lib/extractTags.ts:11 | the greedy `[A-Za-z0-9_-]+` run from j ends at the first character that is not a tag character |
| ExtractTags.FindTag | lib/extractTags.ts:11 | `exec` from `lastIndex`: the match found is a `#` not preceded by `#` and followed by a tag character, at or after from, with no match between from and it; no result means no match in the rest of the line |
| ExtractTags.Tokens | lib/extractTags.ts:25-27 | every name captured by the successive matches is a non-empty run of tag characters |
| ExtractTags.TokensSound | lib/extractTags.ts:10-11 | every captured name sits right after a `#` that no `#` precedes |
| ExtractTags.TokensComplete | lib/extractTags.ts:10-11 | every match position contributes its greedy name to the captured names |
| ExtractTags.NoHashNoTokens | lib/extractTags.ts:11 | a line without `#` yields no names |
| ExtractTags.FenceLineIff | lib/extractTags.ts:16-18 | a fence line is exactly one whose trimmed text is three backticks followed only by word characters |
| ExtractTags.FenceExampleLanguage | lib/extractTags.ts:14-17 | "```python" is a fence line |
| ExtractTags.FenceExampleIndented | lib/extractTags.ts:17 | "  ```" is a fence line, since the line is trimmed first |
| ExtractTags.FenceExamplePunctuation | lib/extractTags.ts:17 | "```c++" is not a fence line |
| ExtractTags.FenceExampleFourTicks | lib/extractTags.ts:17 | "````" is a fence line only if a backtick is a word character, which it is not |
| ExtractTags.SplitLines | lib/extractTags.ts:44 | `split(/\r?\n/)` gives at least one line and no line holds a line feed |
| ExtractTags.VisibleTokensSound | lib/extractTags.ts:46-54 | every name scanned is captured on a line that is neither a fence line nor inside a code block |
| ExtractTags.VisibleTokensComplete | lib/extractTags.ts:46-54 | every tag written on a scanned line is among the scanned names |
| ExtractTags.ScanStep | lib/extractTags.ts:46-54 | one turn of the loop: a fence line flips `inCodeBlock`, a line outside a block adds its names, a line inside adds nothing |
| ExtractTags.FirstByLower | lib/extractTags.ts:5 | the reference de-duplication: no two kept names agree in lower case, every kept name is a scanned name, and every scanned name's lower-case form is represented |
| ExtractTags.FirstByLowerFirstCasing | lib/extractTags.ts:5-7 | each kept name is the first occurrence of its lower-case form |
| ExtractTags.CollectIsFirstByLower | lib/extractTags.ts:23-33 | the `seenLower`/`result` loop run over all scanned names gives the reference de-duplication, and its set is the lower-case forms seen |
| ExtractTags.ExtractFromLine | lib/extractTags.ts:23-33 | the `exec` loop over one line updates `seenLower` and `result` as the de-duplicating step applied to each captured name in turn |
| ExtractTags.Extract | lib/extractTags.ts:40-57 | `extractTags` returns the reference de-duplication of the names on lines outside code blocks |
| ExtractTags.ExtractedAreTagTokens | lib/extractTags.ts:10-11 | every extracted tag is a non-empty run of `[A-Za-z0-9_-]` |
| ExtractTags.ExtractedAreVisible | lib/extractTags.ts:4 | every extracted tag is captured on a line outside every fenced code block |
| ExtractTags.ExtractedComplete | lib/extractTags.ts:2-5 | every tag on a scanned line is represented, up to case, in the result |
| ExtractTags.ExtractedDistinctCI | lib/extractTags.ts:5 | no two extracted tags are equal ignoring case |
| ExtractTags.NoHashNoTags | lib/extractTags.ts:40-57 | when no scanned line holds `#`, no name is scanned |
| ExtractTags.NoHashNothingExtracted | lib/extractTags.ts:40-57 | content with no `#` outside its fenced blocks has no tags extracted |
| ExtractTags.HeadingHashesExamples | lib/extractTags.ts:10 | "##Foo" and "### H" give no tag: a `#` preceded by `#` does not start a match |
| ExtractTags.FirstCasingExample | lib/extractTags.ts:6 | "HashMap" then "hashmap" keeps only "HashMap" |
| LeetCodeService.NamesOf | lib/leetcode.service.ts:138-139 | the names of linked ids, one per id, in order |
| LeetCodeService.NameTable.constructor | lib/leetcode.service.ts:86-90 | an empty name table |
| LeetCodeService.NameTable.Upsert | lib/leetcode.service.ts:86-90 | a known name keeps its id and the table is unchanged; a new name gets the next fresh id, and only it is added |
| LeetCodeService.NameTable.UpsertAll | lib/leetcode.service.ts:85-92 | one id per name, in order, each the id the table now holds for that name; the table gains exactly those names and keeps every old entry |
| LeetCodeService.NameTable.EnsureIds | lib/leetcode.service.ts:81-94 | `ensureTagIds`: one id per normalised name (trimmed, blanks dropped), in order; the table gains exactly those names and keeps every old entry |
| LeetCodeService.ToYmd | lib/leetcode.service.ts:133-135 | the formatted date has ten characters |
| LeetCodeService.ToProgressDto | lib/leetcode.service.ts:111-118 | no row gives no progress; a row gives its two dates as `YYYY-MM-DD` and its count |
| LeetCodeService.DisplayProgressMeaning | lib/leetcode.service.ts:141-146 | the first date is the creation date; the latest is the last check-in, or the creation date without progress; the count is one more than the check-ins, so at least 1 |
| LeetCodeService.NoteDtoNames | lib/leetcode.service.ts:137-162 | the note carries its linked tag and source names, and its meta (present exactly when the row has one) repeats the source names |
| LeetCodeService.CheckedIn | lib/leetcode.service.ts:337-346 | after a check-in the latest date is that day and the count is at least 1 |
| LeetCodeService.CheckInsFromNothing | lib/leetcode.service.ts:337-346 | from no progress, n check-ins give count n with the first and last dates; no check-in leaves no progress |
| LeetCodeService.CheckInsCount | lib/leetcode.service.ts:342-345 | each check-in on existing progress adds one to the count and keeps the first date |
| LeetCodeService.UrlOrNull | lib/leetcode.service.ts:220 | the trimmed URL or null: null exactly for an absent or blank URL, otherwise the trimmed, non-empty URL |
| LeetCodeService.TrimEmptyIffBlank | lib/leetcode.service.ts:220 | a URL trims to the empty string exactly when it is blank |
| LeetCodeService.UpdatedPost | lib/leetcode.service.ts:271-280 | an update keeps the kind and creation time and sets the update time to now |
| LeetCodeService.UpdateOnlySupplied | lib/leetcode.service.ts:247-280 | an absent field leaves its column as it was, no meta field leaves the meta as it was, and a null or blank URL clears the URL |
| LeetCodeService.UpdateIdempotent | lib/leetcode.service.ts:247-280 | applying the same update twice is applying it once |
| LeetCodeService.Store.constructor | lib/leetcode.service.ts:205-238 | an empty store: no posts, meta, progress or link rows, empty tag and source tables and a zero counter |
| LeetCodeService.Store.NoteById | lib/leetcode.service.ts:310-316 | a note exactly for the id of a LeetCode post, with that post's id, title and slug |
| LeetCodeService.Store.CreateLeetCodeNote | lib/leetcode.service.ts:205-238 | a new LeetCode post under a fresh id, created and updated now, with its meta (independent defaulting to false, the URL trimmed or null), the normalised tags and sources linked in order, no progress and a display count of 1; the name tables gain exactly the new names and keep every existing entry; no other post's links change |
| LeetCodeService.Store.WriteNote | lib/leetcode.service.ts:271-286 | the post row is replaced, the meta written when given, and the tag and source links set only when there are ids |
| LeetCodeService.Store.UpdateLeetCodeNote | lib/leetcode.service.ts:240-293 | no LeetCode post with the id gives null and changes nothing; otherwise only the supplied fields change, supplied tags or sources replace the links (in normalised order), absent ones keep them, other posts keep theirs, and an update of a missing meta row fails after the links were dropped; no other post's row, meta or links change, and the name tables keep every existing entry |
| LeetCodeService.Store.UpdateExisting | lib/leetcode.service.ts:247-292 | the update of a post known to exist, with the same outcome and frame as above |
| LeetCodeService.Store.ResetLinks | lib/leetcode.service.ts:261-269 | supplied tags or sources drop the post's links and are upserted, giving the ids of their normalised names; absent ones leave links and names alone; existing name-table entries are kept |
| LeetCodeService.Store.CheckInLeetCode | lib/leetcode.service.ts:327-350 | a missing post gives null and changes nothing; otherwise the progress row is created with count 1 or moved to the day with the count increased, and the note is returned; nothing else changes |
| LeetCodeService.LinksReset | lib/leetcode.service.ts:261-286 | delete-then-create changes only this post's links, to the new ids when supplied |
| LeetCodeService.LinkedNames | lib/leetcode.service.ts:81-94 | the ids `ensureTagIds` gives name back the normalised names |
| LeetCodeService.FacetNames | lib/leetcode.service.ts:180-190 | a facet filter is the normalised given names, none when absent |
| LeetCodeService.AndConditions | lib/leetcode.service.ts:184 | and-mode gives one `some` condition per name |
| LeetCodeService.BaseConditions | lib/leetcode.service.ts:174-178 | the conditions start with the LeetCode type |
| LeetCodeService.Conditions | lib/leetcode.service.ts:173-198 | the conditions start with the LeetCode type |
| LeetCodeService.NormalizedMember | lib/leetcode.service.ts:77-79 | a name survives `normalizeNames` exactly when it is the trimmed, non-empty form of a given name |
| LeetCodeService.AndMeaning | lib/leetcode.service.ts:182-184 | and-mode holds exactly when every wanted name is linked |
| LeetCodeService.OrMeaning | lib/leetcode.service.ts:185-186 | or-mode holds exactly when some wanted name is linked |
| LeetCodeService.FacetConditionsMeaning | lib/leetcode.service.ts:180-198 | a facet's conditions hold exactly when the facet filter accepts the post's names |
| LeetCodeService.FacetOkAnd | lib/leetcode.service.ts:181-184 | under and-mode (the default) a facet accepts exactly when every wanted name is present |
| LeetCodeService.FacetOkOr | lib/leetcode.service.ts:185-186 | under or-mode, with names given, a facet accepts exactly when some wanted name is present |
| LeetCodeService.FacetOkOfBlank | lib/leetcode.service.ts:180-182 | no non-blank name accepts every post |
| LeetCodeService.BaseMeaning | lib/leetcode.service.ts:174-178 | the base conditions hold exactly for LeetCode posts with the chosen difficulty, if any |
| LeetCodeService.BuildListWhereMeaning | lib/leetcode.service.ts:173-201 | the `where` accepts a post exactly when it is a LeetCode post, has the chosen difficulty, and both facets accept its names; a single condition is used as it stands |
| LeetCodeService.EmptyFiltersKeepLeetCode | lib/leetcode.service.ts:200 | no filter keeps exactly the LeetCode posts |
| LeetCodeService.DifficultyFromName | lib/leetcode.service.ts:4 | a name read as a difficulty is that difficulty's name |
| LeetCodeService.DifficultyNameRoundTrip | lib/leetcode.service.ts:4 | every difficulty reads back from its name |
| LeetCodeService.BuildLeetCodeListQuery | lib/leetcode.service.ts:392-393 | the query string is empty exactly when no parameter is set, and otherwise starts with "?" |
| LeetCodeActions.SlugChars | app/leetcode/actions.ts:24-28 | after trimming, lower-casing, turning white-space runs into "-" and dropping the other characters, only `[a-z0-9-]` remain |
| LeetCodeActions.Dashed | app/leetcode/actions.ts:29 | after collapsing dash runs, no "--" remains |
| LeetCodeActions.DropEndDashes | app/leetcode/actions.ts:30 | removing one leading and one trailing dash leaves no dash at either end and keeps the other facts |
| LeetCodeActions.Slugify | app/leetcode/actions.ts:23-32 | `slugify` always gives a slug (non-empty, over `[a-z0-9-]`, no "--", no dash at either end), and "post" when nothing is left |
| LeetCodeActions.SlugOfSlug | app/leetcode/actions.ts:23-32 | a slug is its own slug |
| LeetCodeActions.SlugifyIdempotent | app/leetcode/actions.ts:23-32 | slugifying twice is slugifying once |
| LeetCodeActions.SlugifyBlank | app/leetcode/actions.ts:31 | a blank title gives "post" |
| LeetCodeActions.Suffixed | app/leetcode/actions.ts:40 | `${base}-${n}` extends the base |
| LeetCodeActions.SuffixedInjective | app/leetcode/actions.ts:40 | different counters give different candidates |
| LeetCodeActions.CandidateNotTried | app/leetcode/actions.ts:35-42 | the loop never tries a candidate twice |
| LeetCodeActions.FindAvailableSlug | app/leetcode/actions.ts:34-43 | the result is not taken; it is the base when the base is free, and otherwise `base-n` for the least n >= 2 not taken |
| LeetCodeActions.SuffixedIsSlug | app/leetcode/actions.ts:40 | a suffixed slug is still a slug |
| LeetCodeActions.FreeSlugIsSlug | app/leetcode/actions.ts:34-43 | the slug found for a slug is a slug |
| LeetCodeActions.Strings | app/leetcode/actions.ts:69 | `String(x)` of each item, in order |
| LeetCodeActions.ParseJsonArray | app/leetcode/actions.ts:65-75 | no field reads as "[]" and gives no names; a value that is not a JSON array throws "须为合法 JSON 数组"; an array gives its names |
| LeetCodeActions.ParseJsonArrayRejects | app/leetcode/actions.ts:66-68 | it throws exactly when the text is not JSON or not an array |
| LeetCodeActions.ArrayNamesMeaning | app/leetcode/actions.ts:69-70 | the names are trimmed, non-empty, without duplicates, a subsequence of the trimmed non-blank items, and already normalised |
| LeetCodeActions.ArrayNamesOrder | app/leetcode/actions.ts:69-70 | the names keep the order of their first occurrence among the trimmed, non-blank items |
| LeetCodeActions.ArrayNamesMembers | app/leetcode/actions.ts:69-70 | a name is listed exactly when it is the non-empty trimmed form of some item |
| LeetCodeActions.ParsedNamesAreNormal | app/leetcode/actions.ts:65-75 | the parsed names have no duplicates and survive `normalizeNames` unchanged |
| LeetCodeActions.ParseContent | app/leetcode/actions.ts:82-92 | an absent or blank `contentJson` is no content; other text is its JSON value, or throws "contentJson 须为合法 JSON" when it does not parse |
| LeetCodeActions.ParseCheckbox | app/leetcode/actions.ts:102-105 | "on" is checked, "" unchecked, an absent field undefined, and any other value a schema error |
| LeetCodeActions.CreateSchema | app/leetcode/actions.ts:80-107 | an accepted form has a non-empty title, at most 20 tags and sources of at most 50 characters each and at least one source, a difficulty spelled as given, `independent` exactly when "on", the URL trimmed or null, `{}` as content when none is given, and duplicate-free normalised names; a thrown error carries one of the two messages |
| LeetCodeActions.UpdateSchema | app/leetcode/actions.ts:109-132 | an accepted form has a non-empty id, an optional non-empty title, names within the limits (empty when absent), no content exactly for a missing or blank field, a difficulty and `independent` exactly when present, and a URL exactly when the field is not blank, trimmed |
| LeetCodeActions.CreateSchemaAccepts | app/leetcode/actions.ts:80-107 | a create form is accepted exactly when the content is absent, blank or JSON, both lists are absent or JSON arrays, and the title, difficulty, checkbox and list limits (at most 20 names of at most 50 characters, at least one source) hold; a transform throws exactly when the content or a list fails to parse, the content message first |
| LeetCodeActions.UpdateSchemaAccepts | app/leetcode/actions.ts:109-132 | an update form is accepted exactly when the content is absent, blank or JSON, both lists are absent or JSON arrays, and the id, title, difficulty, checkbox and list limits hold; a transform throws exactly when the content or a list fails to parse, the content message first |
| LeetCodeActions.PostIdOf | app/leetcode/actions.ts:171-173 | an id string names a post exactly when it is the rendering of that post's number |
| LeetCodeActions.PostIdOfRendering | app/leetcode/actions.ts:171-173 | every post number reads back from its rendering |
| LeetCodeActions.UniqueAfterWrite | app/leetcode/actions.ts:147-158 | writing a post whose slug no other LeetCode post holds keeps the slugs unique |
| LeetCodeActions.OwnSlugFree | app/leetcode/actions.ts:39 | a post's own slug is free when that post is excluded |
| LeetCodeActions.CreateLeetCodeAction | app/leetcode/actions.ts:143-165 | a rejected form returns the schema error and changes nothing; an accepted one creates exactly one post under a fresh id with the first free slug of its title, redirects to `/leetcode/<slug>`, and keeps LeetCode slugs unique; no other post's meta or links change, the check-ins are untouched, and the name tables keep every entry |
| LeetCodeActions.CreateNote | app/leetcode/actions.ts:147-160 | the accepted form is stored as a new post with a free slug, and the returned note is the stored one; no other post's meta or links change, the check-ins are untouched and the name tables keep every entry |
| LeetCodeActions.CreatedFrom | app/leetcode/actions.ts:147-158 | a post written under a fresh id with the form's fields and a free slug is the created note |
| LeetCodeActions.TakenExcludingFresh | app/leetcode/actions.ts:39 | excluding an id that names no post excludes nothing |
| LeetCodeActions.UpdateLeetCodeAction | app/leetcode/actions.ts:167-199 | a rejected form returns the schema error and an unknown id "笔记不存在", both changing nothing; otherwise the post gets the supplied fields, a new title gets a fresh slug (its own slug counting as free), tags and sources are always replaced (by nothing when the field is absent), the check-ins are untouched, and LeetCode slugs stay unique; no other post's row, meta or links change, the name tables keep every entry, and a database error leaves the post and meta rows as they were with the note's links dropped |
| LeetCodeActions.UpdateNote | app/leetcode/actions.ts:176-194 | the update of a known note succeeds with the updated fields or fails with a database error that leaves post and meta rows as they were and the note's links dropped; no other post's row, meta or links change, the name tables keep every entry, and slugs stay unique |
| LeetCodeActions.SlugsUniqueAfterUpdate | app/leetcode/actions.ts:176-190 | an update with a slug free of the other posts keeps LeetCode slugs unique |
| LeetCodeActions.UpdatedFromStep | app/leetcode/actions.ts:181-190 | the columns written by the service are the ones the form asked for |
| LeetCodeActions.Pruned | app/leetcode/actions.ts:237-240 | exactly the entries at or after the cutoff stay, with their times |
| LeetCodeActions.CheckInLimiter.constructor | app/leetcode/actions.ts:226 | the map starts empty |
| LeetCodeActions.CheckInLimiter.SetCheckInDone | app/leetcode/actions.ts:234-241 | the note's entry is set to now, and then exactly the entries older than one minute are deleted; the new entry always survives |
| LeetCodeActions.PruningKeepsVerdicts | app/leetcode/actions.ts:228-241 | pruning never changes whether a later request is rate-limited |
| LeetCodeActions.CooldownAfterCheckIn | app/leetcode/actions.ts:225-235 | after a check-in the note is rate-limited exactly for the next 15 seconds |
| LeetCodeActions.StartOfUtcDay | lib/leetcode.service.ts:328 | the check-in date is midnight UTC of the same day |
| LeetCodeActions.CheckInLeetCodeAction | app/leetcode/actions.ts:243-261 | an empty id is rejected; a rate-limited one gets "请勿频繁打卡，请稍后再试" and changes nothing; an unknown note gets "笔记不存在" without recording a time; otherwise the progress is advanced to today's UTC midnight, the note returned, and the limiter records now and prunes; on every path posts, metas, tag and source links and the id counter are unchanged |
| LeetCodePage.ParseNames | app/leetcode/page.tsx:25-26 | the comma-split list holds only non-empty, trimmed names without commas |
| LeetCodePage.ParseListParams | app/leetcode/page.tsx:24-35 | the parsed tags and sources are clean names and the query is trimmed |
| LeetCodePage.ParseNamesOfEnums | app/leetcode/page.tsx:27-33 | each mode, difficulty, sort key and order reads back from its own name; "or" is the only spelling of or-mode, "asc" the only one of ascending order, and a difficulty is read exactly from its name |
| LeetCodePage.ParseJoinedNames | app/leetcode/page.tsx:25 | a non-empty list of clean names, comma-joined, splits back into itself |
| LeetCodePage.QueryParams | lib/leetcode.service.ts:383-394 | the query string carries `tags` and `sources` (comma-joined) only when non-empty, `mode`, `difficulty`, `sort` and `order` only when given, and the trimmed `q` only when it is not blank |
| LeetCodePage.QueryTags | lib/leetcode.service.ts:385 | the `tags` parameter is the comma-joined tags, present only when there are some |
| LeetCodePage.QuerySources | lib/leetcode.service.ts:386 | the `sources` parameter is the comma-joined sources, present only when there are some |
| LeetCodePage.QueryMode | lib/leetcode.service.ts:387 | the `mode` parameter is the mode's name when a mode is given |
| LeetCodePage.QueryDifficulty | lib/leetcode.service.ts:388 | the `difficulty` parameter is the difficulty's name when one is given |
| LeetCodePage.QuerySearch | lib/leetcode.service.ts:389 | the `q` parameter is the trimmed query when it is not blank |
| LeetCodePage.QuerySort | lib/leetcode.service.ts:390 | the `sort` parameter is the key's name when one is given |
| LeetCodePage.QueryOrder | lib/leetcode.service.ts:391 | the `order` parameter is the order's name when one is given |
| LeetCodePage.TagsRoundTrip | app/leetcode/page.tsx:25 | the page reads back the tags a link carries |
| LeetCodePage.SourcesRoundTrip | app/leetcode/page.tsx:26 | the page reads back the sources a link carries |
| LeetCodePage.EnumsRoundTrip | app/leetcode/page.tsx:27-33 | the page reads back the mode, difficulty, sort and order a link carries, with the defaults `and`, none, `updatedAt` and `desc` |
| LeetCodePage.QRoundTrip | app/leetcode/page.tsx:31 | the page reads back the trimmed query a link carries |
| LeetCodePage.QueryRoundTrip | app/leetcode/page.tsx:24-35 | `parseListParams` after `buildLeetCodeListQuery` gives back every parameter, with its default when absent |
| LeetCodePage.SelfLinkRoundTrip | app/leetcode/page.tsx:105-107 | a link built from the page's own parameters leads back to the same parameters |
| LeetCodePage.PageFilters | app/leetcode/page.tsx:89-95 | both facets are filtered with the page's mode |
| LeetCodePage.PageFiltersMeaning | app/leetcode/page.tsx:89-95 | a note is listed exactly when it is a LeetCode post, has the chosen difficulty if any, and its tags and sources satisfy the selected names under the mode |
| LeetCodePage.CleanFacet | app/leetcode/page.tsx:90-93 | passing an empty list as absent does not change what the filter accepts |
| LeetCodePage.FilterBySearchMeaning | app/leetcode/page.tsx:37-46 | an empty query keeps every note; otherwise a note stays exactly when the lower-cased query occurs in its lower-cased title, slug or a tag, and the order is kept |
| LeetCodePage.SortNotes | app/leetcode/page.tsx:48-64 | the sorted notes are a permutation of the input, ordered by the chosen key and direction |
| LeetCodePage.SortInPlace | app/leetcode/page.tsx:55-62 | sorting the copied array in place permutes it into the chosen order |
| LeetCodePage.InsertAt | app/leetcode/page.tsx:55-62 | one insertion step moves an element into the sorted prefix, keeping the elements |
| LeetCodePage.SortedByDate | app/leetcode/page.tsx:59-61 | in a list sorted by a date, every earlier note has an earlier (ascending) or later (descending) or equal time |
| LeetCodePage.SortedByTitle | app/leetcode/page.tsx:57 | in a list sorted by title, no later title comes before an earlier one in the chosen direction |
| LeetCodePage.AllTagNamesMeaning | app/leetcode/page.tsx:101 | the tag list is sorted, without duplicates, and holds exactly the tags of the notes |
| LeetCodePage.AllSourceNamesMeaning | app/leetcode/page.tsx:102 | the source list is sorted, without duplicates, and holds exactly the sources of the notes |
| LeetCodePage.SortLinkMeaning | app/leetcode/page.tsx:228-230 | following a sort link selects that option; the active option flips `desc` to `asc` and anything else to `desc`, another option starts at `desc`; every other parameter is kept |
| LeetCodePage.SortOverrideRoundTrip | app/leetcode/page.tsx:106-107 | overriding sort and order in a link changes only those two parameters |
| PostsPage.FilterBySearchMeaning | app/posts/page.tsx:12-21 | a blank query keeps every note; otherwise a note stays exactly when the lower-cased trimmed query occurs in its lower-cased title, slug or one of its tags, and the order is kept |
| PostsPage.FilterBySearchIsFilter | app/posts/page.tsx:12-21 | the search filter is `notes.filter` of that test |
| PostsPage.FilterByTagsMeaning | app/posts/page.tsx:23-26 | no tags keep every note; otherwise a note stays exactly when it has every selected tag, and the order is kept |
| PostsPage.FilterByTagsIsFilter | app/posts/page.tsx:23-26 | the tag filter is `notes.filter` of that test |
| PostsPage.FiltersCommute | app/posts/page.tsx:36 | filtering by tags after the search gives the same list as searching after the tag filter |
| PostsPage.ListedMeaning | app/posts/page.tsx:32-36 | the listed notes are, in order, those that match the trimmed `q` and carry every tag of the comma-split, trimmed, non-empty `tags` parameter |
| PostsPage.TagLinkPairs | app/posts/page.tsx:64-68 | a tag link has a `tags` parameter exactly when the toggled selection is non-empty, holding it comma-joined, and a `q` parameter exactly when the query is non-empty |
| PostsPage.ParamAfter | app/posts/page.tsx:66-68 | a parameter is read past pairs carrying other names |
| PostsPage.TagHref | app/posts/page.tsx:69 | the link is bare `/posts` exactly when there is no parameter |
| PostsPage.TagLinkRoundTrip | app/posts/page.tsx:63-69 | following a tag link, the page reads back its query and the selection with that tag toggled |
| Pagination.Run | components/ui/Pagination.tsx:53 | the pages a to b, in order, each once |
| Pagination.ShowPages | components/ui/Pagination.tsx:47-55 | the `add`/`push` sequence builds page 1, an ellipsis when page > 3, the pages around the current one, an ellipsis when page < total - 2, and the last page, each page at most once |
| Pagination.Dedup | components/ui/Pagination.tsx:56-62 | the dedup loop collapses each run of ellipses into one |
| Pagination.CollapsedMeaning | components/ui/Pagination.tsx:56-62 | after the dedup no two ellipses are adjacent, the page numbers are those of the input in order, and the first entry and (unless it was an ellipsis) the last are kept |
| Pagination.CollapsedIdentity | components/ui/Pagination.tsx:56-62 | a list without adjacent ellipses is left as it is |
| Pagination.WindowShape | components/ui/Pagination.tsx:47-55 | for more than one page: strictly increasing page numbers between 1 and total, starting with page 1 and ending with the last page, at most 7 entries, no adjacent ellipses |
| Pagination.WindowEllipsis | components/ui/Pagination.tsx:52-54 | an ellipsis sits second when page > 3, or right after the window around the page when page < total - 2 |
| Pagination.WindowGap | components/ui/Pagination.tsx:52-54 | for a page in range, each ellipsis stands between two shown pages and hides at least one page |
| Pagination.WindowAroundPage | components/ui/Pagination.tsx:51-55 | for a page in range, the page and its neighbours are shown, and every ellipsis hides a page |
| Pagination.DedupKeepsWindow | components/ui/Pagination.tsx:56-62 | the dedup never changes what `showPages` builds |
| Pagination.Render | components/ui/Pagination.tsx:40-62 | nothing rendered for one page or fewer; otherwise previous and next links exactly when page > 1 and page < total, pointing to page - 1 and page + 1, and the entries have the shape above |
| Pagination.Without | components/ui/Pagination.tsx:25 | `params.delete(name)` keeps exactly the other pairs, and name is then absent |
| Pagination.SetPairs | components/ui/Pagination.tsx:24 | `params.set(name, value)` makes name read value and leaves the other names as they were |
| Pagination.PagedQuery | components/ui/Pagination.tsx:23-25 | page 1 or below has no `page` parameter, a later page has its number, and the other parameters are unchanged |
| Pagination.BuildHref | components/ui/Pagination.tsx:22-28 | the link is the base path, followed by "?" and the parameters when there are any |
| Pagination.LinksDifferOnlyInPage | components/ui/Pagination.tsx:22-28 | two page links carry the same parameters apart from `page`, and links to different pages after the first differ |
| Pagination.RunMember | components/ui/Pagination.tsx:53 | the loop adds exactly the pages from a to b, and no ellipsis |
| Pagination.WindowIncreasing | components/ui/Pagination.tsx:47-55 | the shown page numbers lie between 1 and total and strictly increase |
| Pagination.WindowEnds | components/ui/Pagination.tsx:51-55 | the window has 2 to 7 entries, begins with page 1 and ends with the last page |
| Pagination.WindowNoAdjacentEllipses | components/ui/Pagination.tsx:52-54 | no two ellipses stand next to each other |
| Pagination.WindowShowsPage | components/ui/Pagination.tsx:53 | for a page in range, the page and its neighbours are shown |
| DashboardStats.InferDifficultyMeaning | lib/dashboard-stats.ts:35-45 | a front-matter difficulty wins; otherwise the first of easy, medium, hard found among the lower-cased tags, in that order of preference, and none when no tag names one |
| DashboardStats.LeetCodeCountIsFilter | lib/dashboard-stats.ts:63-65 | `leetcodeCount` is the length of the posts filtered by "category leetcode or a tag `leetcode` in any case" |
| DashboardStats.InferredCountsBound | lib/dashboard-stats.ts:67-71 | each post is counted under at most one difficulty, so the three counts add up to at most the number of posts |
| DashboardStats.CountDifficulties | lib/dashboard-stats.ts:67-71 | the loop counts, for each difficulty, the posts whose inferred difficulty it is |
| DashboardStats.InsertDesc | lib/dashboard-stats.ts:75 | inserting an entry behind every entry of larger count keeps the order non-increasing and keeps each count's entries in their order |
| DashboardStats.SortByCountDesc | lib/dashboard-stats.ts:75 | the sort orders by non-increasing count and keeps, for every count, the entries of that count in their original order (a stable sort) |
| DashboardStats.StableSortUnique | lib/dashboard-stats.ts:75 | any two non-increasing orders that keep each count's entries in the same order are equal, so the stable `sort` result is determined |
| DashboardStats.TopTags | lib/dashboard-stats.ts:73-76 | `topTags` is the first min(10, n) entries of the stable sort by count |
| DashboardStats.TagCounts | lib/dashboard-stats.ts:73-74 | each index entry becomes its tag with the number of its posts |
| DashboardStats.MonthKeyInjective | lib/dashboard-stats.ts:47-49 | different months give different `YYYY-MM` keys |
| DashboardStats.MonthKeys | lib/dashboard-stats.ts:78-83 | the six keys are those of the months from five months ago to the current one |
| DashboardStats.TrendWindow | lib/dashboard-stats.ts:80-83 | the six months are consecutive and end with the current month, and their keys are distinct |
| DashboardStats.MonthCountByMonth | lib/dashboard-stats.ts:85-90 | counting by key counts the dated posts of that calendar month |
| DashboardStats.Trend | lib/dashboard-stats.ts:84-94 | the trend holds, for each key in order, the number of dated posts of that month |
| DashboardStats.Activity | lib/dashboard-stats.ts:96-109 | the activity record has exactly the 364 days up to today, each with its number of dated posts |
| DashboardStats.BuildDashboardStatsJson | lib/dashboard-stats.ts:58-119 | the total, the LeetCode count, the difficulty distribution, the top tags, the six-month trend and the daily activity, each as the functions above define it |
| DashboardStats.TrendSumBound | lib/dashboard-stats.ts:84-94 | the six monthly counts add up to at most the number of posts, since the months differ |
| ContentTags.BodyEnd | lib/tags.ts:4 | the greedy `[^\s#]+` run from j ends at the first white space character or `#` |
| ContentTags.FindHashTag | lib/tags.ts:4 | `exec` from `lastIndex`: the leftmost `#` followed by a body character at or after from, none before it |
| ContentTags.HashTokens | lib/tags.ts:9-11 | every captured name is a non-empty run of characters that are neither white space nor `#` |
| ContentTags.HashTokensComplete | lib/tags.ts:4 | every match position contributes its name |
| ContentTags.AddStep | lib/tags.ts:10-11 | one turn of the loop: the `.trim()` leaves the captured name as it is, and the name joins the set when it is new |
| ContentTags.ExtractTagsFromContent | lib/tags.ts:6-14 | `extractTagsFromContent` returns the captured names once each, in order of first occurrence |
| ContentTags.ContentTagsAreTokens | lib/tags.ts:4 | every tag found is a non-empty run without white space or `#` |
| ContentTags.ContentTagsComplete | lib/tags.ts:6-14 | every `#name` of the content is found, and no tag is listed twice |
| ContentTags.ContentTagsExamples | lib/tags.ts:4 | "##Foo" gives "Foo", "#a#b" gives "a" and "b", "# x" gives nothing |
| ContentTags.PairsOf | lib/tags.ts:23-24 | the inner loop visits the item's tags in order, each paired with the item's slug |
| ContentTags.AggregateKeys | lib/tags.ts:19-35 | the map's keys are the tags in order of first occurrence, and a tag has an entry exactly when it is a key |
| ContentTags.AggregateValues | lib/tags.ts:25-32 | a tag's entry lists the slugs of its occurrences in order, and its count is their number |
| ContentTags.SlugCountIsOccurrences | lib/tags.ts:27-28 | a tag's slug list has one entry per occurrence of the tag over all items, repeated tags included |
| ContentTags.AddItemTags | lib/tags.ts:24-32 | the inner loop adds one item's tags to the map as the aggregation of the pairs seen so far plus that item's |
| ContentTags.AggregateTags | lib/tags.ts:19-35 | `aggregateTags` returns the aggregation of all (slug, tag) pairs in order |
| ContentTags.PairsTags | lib/tags.ts:23-24 | a tag occurs among the pairs exactly when some item lists it |
| ContentTags.AggregateTagsMeaning | lib/tags.ts:16-35 | a tag has an entry exactly when some item lists it; its count is its number of occurrences and its slugs those of the pairs, in order; the keys are distinct |
| Stats.CategoriesSum | lib/stats.ts:11-12 | every article is counted in exactly one category |
| Stats.DifficultiesSum | lib/stats.ts:13-15 | the difficulty counts plus the articles without a difficulty make up all articles |
| Stats.TagSources | lib/stats.ts:18 | one (slug, tags) record per article, in order |
| Stats.BuildDashboardStats | lib/stats.ts:7-32 | the total is the number of articles; each category and difficulty counts its articles and is present exactly when that count is positive; the tag cloud lists the aggregated tags in map order with their count and slugs, and `tagCount` is its length |
| Stats.TagCloudMeaning | lib/stats.ts:18-23 | the cloud's tags are distinct, hold exactly the tags some article lists, and each counts its occurrences |
| Toc.SlugChars | lib/toc.ts:11-15 | after trimming, lower-casing, turning white-space runs into `-` and dropping other characters, only `[a-z0-9一-龥-]` is left |
| Toc.Dashed | lib/toc.ts:16 | after `-+` is collapsed no "--" remains |
| Toc.DropEndDashes | lib/toc.ts:17 | removing one leading and one trailing dash from a text without "--" leaves no dash at either end |
| Toc.SlugBody | lib/toc.ts:11-17 | the replace chain gives slug characters, no "--", no dash at either end |
| Toc.Slugify | lib/toc.ts:10-18 | `slugify` always gives a slug: non-empty, `[a-z0-9一-龥-]` only, no "--", no dash at the ends ("heading" when nothing is left) |
| Toc.FallbackIsSlug | lib/toc.ts:17 | the fallback "heading" is itself a slug |
| Toc.SlugOfSlug | lib/toc.ts:10-18 | a slug is its own slug |
| Toc.SlugifyIdempotent | lib/toc.ts:10-18 | slugifying a slug id again changes nothing |
| Toc.HeadingAt | lib/toc.ts:20 | a match at p is one to six `#`, white space, then a non-empty text up to the end of its line, with the regular expression's backtracking when the white space reaches the end |
| Toc.FindHeading | lib/toc.ts:20 | `exec` with the `m` flag: the match found starts at a line start at or after from |
| Toc.FindHeadingLeftmost | lib/toc.ts:20-26 | no heading starts at a line start between from and the match found |
| Toc.StripClosingHashes | lib/toc.ts:28 | `.replace(/#+\s*$/, '')` gives a prefix of its input |
| Toc.HeadingText | lib/toc.ts:28 | the heading text is trimmed |
| Toc.NoTrailingHashBeforeTrim | lib/toc.ts:28 | before the last trim the text has no trailing `#`: the whole closing run goes |
| Toc.ClosingRunOf | lib/toc.ts:28 | a trimmed text followed by white space and a run of `#` reads back as that text |
| Toc.TrailingHashExample | lib/toc.ts:28 | "a# #" gives "a#": a `#` that white space separates from the closing run stays |
| Toc.NoClosingRun | lib/toc.ts:28 | a trimmed text with no trailing `#` is kept as it is |
| Toc.Matches | lib/toc.ts:25-26 | the successive matches lie inside the content and have depths 1 to 6 |
| Toc.Entries | lib/toc.ts:22-33 | one entry per match |
| Toc.EntriesWellFormed | lib/toc.ts:27-30 | every entry has depth 1 to 6, a trimmed text and a slug id |
| Toc.ExtractToc | lib/toc.ts:22-33 | the `exec` loop returns one item per heading match, in order |
| Toc.NotHeadings | lib/toc.ts:20 | "#Foo" (no white space) and "####### x" (seven `#`) are not headings |
| Toc.MatchesComplete | lib/toc.ts:20-26 | every heading at a line start that an earlier match does not overlap is among the matches |
| Toc.EntriesComplete | lib/toc.ts:22-33 | every such heading has its item in the table of contents |
| LeetCodeContent.WalkCollectText | lib/leetcode-content.ts:7-19 | the recursive walk appends to `parts` exactly the texts of the node in document order |
| LeetCodeContent.CodeBlockContributesNothing | lib/leetcode-content.ts:14 | a `codeBlock` node contributes no text, whatever it contains |
| LeetCodeContent.NonContainerContributesNothing | lib/leetcode-content.ts:8-16 | a node that is not an object, or neither a text node nor one with a `content` array, contributes nothing |
| LeetCodeContent.TextsSound | lib/leetcode-content.ts:10-11 | every collected text is the `text` of a text node reached without entering a code block |
| LeetCodeContent.TextsComplete | lib/leetcode-content.ts:7-19 | every such text is collected |
| LeetCodeContent.RawText | lib/leetcode-content.ts:30 | the joined text is trimmed, has no white-space runs, and its only white space is single spaces |
| LeetCodeContent.SummaryShape | lib/leetcode-content.ts:24-33 | a text within the limit is returned whole; a longer one is cut to at most the limit, trimmed, and ends in "…" |
| LeetCodeContent.SummaryLength | lib/leetcode-content.ts:31-32 | a summary is at most one character longer than the limit |
| SearchIndex.HeadingMarkEnd | lib/search-index.ts:14 | a match of `#{1,6}\s+` starts with `#` and spans at least two characters |
| SearchIndex.StripHeadingMarks | lib/search-index.ts:14 | removing the heading marks shortens the text and adds no character |
| SearchIndex.StripHeadingMarksNoop | lib/search-index.ts:14 | a text without `#` is unchanged |
| SearchIndex.LinkAt | lib/search-index.ts:17 | a link match `[text](url)` has a non-empty text and a non-empty url inside the string |
| SearchIndex.ReplaceLinks | lib/search-index.ts:17 | replacing links by their text shortens the text and adds no character |
| SearchIndex.LinkBecomesText | lib/search-index.ts:17 | `[t](u)` followed by more text becomes `t` followed by the rest with its links replaced |
| SearchIndex.ReplaceLinksNoop | lib/search-index.ts:17 | a text without `[` is unchanged |
| SearchIndex.Demarked | lib/search-index.ts:14-17 | after the first four replacements no `*`, `_` or backtick remains |
| SearchIndex.Collapsed | lib/search-index.ts:18-20 | line-feed and white-space runs become single spaces and the ends are trimmed: white space in the result is a lone inner space |
| SearchIndex.ContentSnippet | lib/search-index.ts:11-21 | `toContentSnippet` gives at most 500 characters, no emphasis marks, backticks or line feeds, trimmed and without space runs |
| SearchIndex.SnippetOfPlain | lib/search-index.ts:11-21 | a text of at most 500 characters without Markdown marks, trimmed, with single spaces only, is its own snippet |
| SearchIndex.BuildSearchIndex | lib/search-index.ts:51-59 | one index item per article, in order, copying slug, title, excerpt, tags and category |
| SearchIndex.BuildSearchIndexAppend | lib/search-index.ts:51-59 | the index of two article lists is the concatenation of their indexes |
| PostsWithSearch.FormatDate | app/posts/PostsWithSearch.tsx:16-20 | no date gives "", a date string is kept as it is, and a date object gives the ten characters of its ISO date in UTC |
| PostsWithSearch.Spans | app/posts/PostsWithSearch.tsx:26-27 | each inclusive match range `[from, to]` becomes the half-open span `[from, to + 1)` |
| PostsWithSearch.TilesShow | app/posts/PostsWithSearch.tsx:35-43 | parts that tile a range of the text show exactly that slice of the text |
| PostsWithSearch.HighlightStep | app/posts/PostsWithSearch.tsx:26-31 | one loop step (an unmarked gap when `from > lastEnd`, then the marked match) extends the tiling to `to + 1` and adds exactly the match to the marked spans |
| PostsWithSearch.HighlightParts | app/posts/PostsWithSearch.tsx:22-32 | no indices give the whole text unmarked; for ordered, non-overlapping ranges inside the text, the parts tile the text, the marked parts are exactly the matches, and the rendered parts spell the text unchanged |
| PostsWithSearch.FindKey | app/posts/PostsWithSearch.tsx:53 | `matches.find` gives the first match whose key (a key path joined with ".") is the wanted key, or none when no match has it |
| PostsWithSearch.GetMatchForKey | app/posts/PostsWithSearch.tsx:48-55 | the indices of the first match for the key, none when there are no matches, no such match, or it has no indices |
| PostsWithSearch.RawResults | app/posts/PostsWithSearch.tsx:98-101 | a blank query lists every record of the index, in order, with no matches; otherwise the Fuse results |
| PostsWithSearch.SearchResultsMeaning | app/posts/PostsWithSearch.tsx:103-108 | with no selected tag the results are the raw results; otherwise a result stays exactly when it has every selected tag, in the original order |
| PostsWithSearch.ToggleTagMeaning | app/posts/PostsWithSearch.tsx:112-116 | toggling a selected tag removes it and keeps the others in order; toggling another appends it, and toggling it again restores the list |
| PostsWithSearch.AllTagsMeaning | app/posts/PostsWithSearch.tsx:92-96 | the tag list is sorted, without duplicates, and holds exactly the tags of the index records |
| LeetCodeCard.VisibleTags | components/leetcode/LeetCodeCard.tsx:46 | the first min(4, n) tags |
| LeetCodeCard.OmittedLabel | components/leetcode/LeetCodeCard.tsx:126-128 | "+k" appears exactly past four tags, k being the number of tags not shown |
| LeetCodeCard.Extended | components/leetcode/LeetCodeCard.tsx:51-53 | the name is added at the end unless it is already there, and the earlier names are kept in order |
| LeetCodeCard.ExtendedMeaning | components/leetcode/LeetCodeCard.tsx:51-53 | the names after extending are the old ones and the new one, and extending twice is extending once |
| LeetCodeCard.TagLinkParams | components/leetcode/LeetCodeCard.tsx:50-55 | a tag link keeps the current sources, mode and difficulty, adds the tag, and keeps the page's `q`, `sort` and `order` |
| LeetCodeCard.SourceLinkParams | components/leetcode/LeetCodeCard.tsx:56-61 | a source link keeps the current tags, mode and difficulty, adds the source, and keeps `q`, `sort` and `order` |
| LeetCodeCard.TagLinkRoundTrip | components/leetcode/LeetCodeCard.tsx:50-55 | following a tag link, the list page reads back its own parameters with the tag added |
| LeetCodeCard.SourceLinkRoundTrip | components/leetcode/LeetCodeCard.tsx:56-61 | following a source link, the list page reads back its own parameters with the source added |
| MultiSelect.Selection.constructor | components/leetcode/MultiSelect.tsx:16-26 | the defaults: no default value, not required, creating allowed, and the selection starts as the default value with an empty input |
| MultiSelect.Selection.SetInput | components/leetcode/MultiSelect.tsx:75 | typing changes only the input |
| MultiSelect.Selection.Toggle | components/leetcode/MultiSelect.tsx:28-32 | a selected value is removed with the other values kept, an unselected one is appended, the input stays, and a duplicate-free selection stays duplicate-free |
| MultiSelect.Selection.AddCustom | components/leetcode/MultiSelect.tsx:34-40 | a trimmed input that is neither blank nor selected is appended and the box cleared; otherwise nothing changes; an added value clears the "required" error |
| MultiSelect.Selection.AllOptions | components/leetcode/MultiSelect.tsx:42 | the listed options are sorted, without duplicates, and are exactly the options and the selected values |
| MultiSelect.HiddenValueRoundTrip | components/leetcode/MultiSelect.tsx:51 | splitting the hidden field on "," gives back a non-empty selection when no value holds a comma |
| MultiSelect.ToggleTwiceRestores | components/leetcode/CreatableMultiSelect.tsx:26-30 | toggling an unselected value twice restores the selection, order included |
| DashboardClient.HeatmapLevel | app/dashboard/DashboardClient.tsx:27-32 | one of the four shades: the lightest exactly for a count of at most 0, its own shade for one and for two posts, the darkest from three on |
| DashboardClient.HeatmapLevelMonotone | app/dashboard/DashboardClient.tsx:27-32 | more posts never give a lighter shade |
| DashboardClient.CountOn | app/dashboard/DashboardClient.tsx:95 | a day's count is its entry in the activity record, and 0 when the record or the entry is missing |
| DashboardClient.Cells | app/dashboard/DashboardClient.tsx:85-96 | 364 cells, the i-th for the day 363 - i days before today, keyed by its date with its count; the keys are distinct when day numbers map to distinct dates |
| DashboardClient.ByWeek | app/dashboard/DashboardClient.tsx:97-103 | the column-by-column layout visits `col * 7 + row` once each in increasing order, so it holds the cells in their own order |
| DashboardClient.Heatmap | app/dashboard/DashboardClient.tsx:85-110 | 364 squares, oldest first, each shaded by its day's count with the `rounded-[2px]` class, with distinct React keys when dates are distinct |
| DashboardClient.DayKeyInjective | app/dashboard/DashboardClient.tsx:23-25 | `getDayKey` tells calendar dates apart |
| AdminPage.LeadingDigits | app/admin/leetcode/page.tsx:13 | the digit run `parseInt` reads is the longest prefix of digits |
| AdminPage.ParsePage | app/admin/leetcode/page.tsx:12-15 | the page is at least 1, and is either 1 or the parsed number |
| AdminPage.ParseSignedOfDigits | app/admin/leetcode/page.tsx:13 | digits after an optional `+`, then a non-digit or the end, parse to their value |
| AdminPage.ParseSignedOfNegative | app/admin/leetcode/page.tsx:13 | digits after `-` parse to their negated value, and a lone `-` to NaN |
| AdminPage.ParsePageOfDigits | app/admin/leetcode/page.tsx:12-15 | white space, an optional `+`, digits and trailing text give the digits' value when it is at least 1, else 1 |
| AdminPage.ParsePageOfNegative | app/admin/leetcode/page.tsx:14 | a negative number or minus zero gives page 1 |
| AdminPage.ParsePageOfNonNumeric | app/admin/leetcode/page.tsx:13-14 | `parseInt` finds no number exactly when no digit follows the white space and the optional sign, and then the page is 1 |
| AdminPage.ParsePageAbsent | app/admin/leetcode/page.tsx:13 | an absent parameter is page 1 |
| AdminPage.ParsePageOfNatToString | app/admin/leetcode/page.tsx:12-15 | `parsePage(String(n))` is n for every n >= 1, so page links read back |
| AdminPage.ParsePageExample | app/admin/leetcode/page.tsx:13 | "3abc" gives page 3 |
| AdminPage.FormatDate | app/admin/leetcode/page.tsx:6-8 | the formatted date has ten characters |
| AdminPage.FormatDateFields | app/admin/leetcode/page.tsx:6-8 | for years 0 to 9999 it is `YYYY-MM-DD` with the UTC fields of the date |
| Dates.MonthOf | lib/dashboard-stats.ts:81 | `new Date(y, m - i, 1)` normalises the month: the result is a valid first-of-month date with the given month count |
| Dates.PaddedExact | lib/dashboard-stats.ts:48 | `String(n).padStart(w, '0')` of a number below 10^w is w digits reading back n |
| Dates.IsoDate10 | app/admin/leetcode/page.tsx:7 | `toISOString().slice(0, 10)` has ten characters |
| Dates.IsoDate10Format | app/admin/leetcode/page.tsx:7 | for years 0 to 9999 it is `YYYY-MM-DD` with the UTC year, month and day |
| Dates.IsoDate10Extended | app/admin/leetcode/page.tsx:7 | for years from 10000 on, the ten characters are `+` and the six-digit year, then a dash: the slice cuts off the day |
| Dates.DayKeyIsIso | lib/dashboard-stats.ts:51-53 | for four-digit years the day key is the ISO calendar date |
| Dates.DashFields3 | app/dashboard/DashboardClient.tsx:23-25 | two dash-separated keys with two-character month and day fields are equal only field by field |
| Text.Lower | app/posts/page.tsx:14 | `toLowerCase` keeps the length |
| Text.LowerIdempotent | app/posts/page.tsx:14-19 | lower-casing twice is lower-casing once |
| Text.TrimStart | app/admin/leetcode/page.tsx:13 | the skipped prefix is white space, and what is left does not start with it |
| Text.TrimEnd | lib/toc.ts:28 | the dropped suffix is white space, and what is left does not end with it |
| Text.Trim | lib/leetcode.service.ts:78 | `trim()` leaves no white space at either end and adds no character |
| Text.TrimOffset | lib/leetcode.service.ts:78 | the trimmed text is a slice of the input |
| Text.TrimEmptyIff | app/posts/page.tsx:13 | a text trims to "" exactly when it is all white space |
| Text.TrimIdempotent | app/leetcode/page.tsx:31 | trimming twice is trimming once |
| Text.Split | app/leetcode/page.tsx:25 | `split(',')` gives at least one part and no part holds a comma |
| Text.JoinSplit | app/leetcode/page.tsx:25 | joining the parts of a split gives back the text |
| Text.SplitJoin | lib/leetcode.service.ts:385 | splitting a join of comma-free parts gives back the parts |
| Text.NatToString | app/admin/leetcode/page.tsx:13 | the decimal rendering of a number is a non-empty run of digits |
| Text.DecimalOfNatToString | app/admin/leetcode/page.tsx:13 | the rendering reads back as the number |
| Text.NatToStringInjective | app/leetcode/actions.ts:40 | different numbers render differently |
| Text.PadStart | lib/dashboard-stats.ts:48 | `padStart` fills on the left up to the width and keeps the text at the end |
| Text.ReplaceRuns | app/leetcode/actions.ts:27 | a `/\s+/g` style replacement leaves runs replaced by one character, never two replaced characters in a row |
| Text.RemoveChars | app/leetcode/actions.ts:28 | a `/[^…]/g` removal leaves none of the removed characters and adds none |
| Seqs.NormalizeNames | lib/leetcode.service.ts:77-79 | `normalizeNames` keeps at most the given names, each trimmed and non-empty |
| Seqs.NormalizeNamesMembers | lib/leetcode.service.ts:77-79 | a name survives exactly when it is the non-empty trimmed form of a given name |
| Seqs.NormalizeNamesOfNormal | lib/leetcode.service.ts:77-79 | normalised names are left as they are |
| Seqs.NormalizeNamesEmpty | lib/leetcode.service.ts:83 | nothing is left exactly when every name is blank |
| Seqs.Dedupe | app/leetcode/actions.ts:70 | `Array.from(new Set(xs))` is no longer than xs |
| Seqs.DedupeMeaning | app/leetcode/actions.ts:70 | it has no duplicates and the same members as xs |
| Seqs.DedupeSubsequence | app/leetcode/actions.ts:70 | it is a subsequence of xs |
| Seqs.FirstIndex | app/leetcode/actions.ts:70 | the position of the first occurrence: x sits there and not before |
| Seqs.DedupeFirstOrder | app/leetcode/actions.ts:70 | its values come in the order of their first occurrence in xs |
| Seqs.Remove | app/posts/PostsWithSearch.tsx:114 | `filter(t => t !== v)` drops exactly v |
| Seqs.ToggledMembers | app/posts/PostsWithSearch.tsx:114 | after a toggle v is present exactly when it was absent, and the other members are unchanged |
| Seqs.ToggleTwice | app/posts/PostsWithSearch.tsx:114 | toggling an absent value appends it, and toggling again restores the list |
| Seqs.ToggledDistinct | components/leetcode/MultiSelect.tsx:30 | a toggle keeps a list free of duplicates |
| Seqs.FilterMeaning | app/posts/page.tsx:25 | `filter` keeps exactly the elements satisfying the test, in order |
| Seqs.FilterCommute | app/posts/page.tsx:36 | two filters can be applied in either order |
| StrOrder.LessTransitive | app/posts/PostsWithSearch.tsx:95 | the code-unit order `sort()` uses is transitive |
| StrOrder.LessTotal | app/posts/PostsWithSearch.tsx:95 | any two different strings are ordered one way or the other |
| StrOrder.Sort | app/posts/PostsWithSearch.tsx:95 | `sort()` gives a sorted permutation |
| StrOrder.SortedUnique | components/leetcode/MultiSelect.tsx:42 | `Array.from(new Set(xs)).sort()` is strictly increasing and has exactly the members of xs |

## Left out

- Database: Prisma queries, `$transaction` and its atomicity, and concurrent requests are not modelled. The store runs each call sequentially over maps. The partial state left between the link deletion and the re-creation in `updateLeetCodeNote` appears only as the `Failed` outcome: that is the model of a Prisma error on a missing meta row.
- Database: generated ids are natural numbers from a counter. In forms they are the decimal rendering of that number.
- Database: `@updatedAt` is taken to set the update time to the `now` argument. The schema file is not part of this model.
- Database: unique constraints on slugs and link rows are not enforced by the store. Uniqueness of LeetCode slugs is proved to be preserved by the create and update actions instead.
- LeetCodeActions.FindAvailableSlug: `getLeetCodeNoteBySlug` is read as "some other LeetCode post has this slug". `findFirst` picks one post among several only when slugs are already duplicated, and the actions keep them unique.
- Database errors: their messages are not modelled. `DatabaseError` stands for any exception the service throws during an update.
- zod: issue messages and their `;`-joined text are not modelled. Only acceptance, the limits (20 items, 50 characters, a non-empty title and id, at least one source) and the two thrown messages are.
- `formDataToObject` is taken as the given map of text fields.
- `revalidatePath` calls, `deleteLeetCodeNote`, `deleteLeetCodeAction`, `listLeetCodeNotes`, `listTags`, `getAllTags` and their source counterparts are not modelled. They are plain database reads or deletes with no logic beyond the filters already proved for `buildListWhere`.
- Clocks and calendars: the clock is the `now` argument, and the two clock reads in `setCheckInDone` are one value. A `Date` is an abstract pair of a time value and its UTC calendar date. Local calendar dates are given by a `civil` function from day numbers (`getFullYear`/`getMonth`/`getDate`); converting between time values and dates, time zones and `Date`'s month overflow are not computed.
- DashboardStats.Activity: days are keyed by day number rather than by the `YYYY-MM-DD` string. The two agree because `getDayKey` is injective (proved as `DashboardClient.DayKeyInjective`).
- Dates.IsoDate10: only its length is stated for every year. Its `YYYY-MM-DD` form is proved for years 0 to 9999, and its extended-year form from 10000 on. Negative years are not described.
- Unicode: `\s`, `trim` and `toLowerCase` are restricted to ASCII. `localeCompare` title sorting is modelled as code-unit order.
- Unicode: a Dafny `string` is a sequence of code points, while JavaScript strings are sequences of UTF-16 code units. So the model's lengths, slices and default `sort` order work on code points. These are the zod `max(50)` item limit, the summary and snippet cuts `slice(0, maxLength)` and `slice(0, CONTENT_SNIPPET_LENGTH)`, and the string order of `StrOrder`. They agree with the source on the Basic Multilingual Plane. For characters outside it, they differ: such a character counts 2 toward a length limit in the source but 1 here; the source's slice can split its surrogate pair; and the source orders it before U+E000–U+FFFF, while code-point order puts it after.
- Unicode: the percent-encoding of `URLSearchParams` is not modelled. A query string is its ordered list of pairs, rendered as `k=v` joined by `&`.
- JSON: `JSON.parse` is a parameter that gives none where it throws. JSON numbers are integers, both in rich-text documents and as items of the `tags`/`sources` arrays read by `parseJsonArray`: `String(x)` of an item is its exact decimal rendering, so a fractional item such as `1.5`, the exponent form `1e+21`, and the rounding past 2^53 are not modelled. `JSON.stringify` of the creatable multi-select's hidden field is not modelled.
- Search: Fuse.js search and `fetch` of the search index are parameters. The model covers what the components do with the results.
- LeetCodePage.SortNotes: proved to give a sorted permutation. For ties it does not state the order a stable `Array.prototype.sort` keeps.
- PostsWithSearch.HighlightParts: its tiling property is stated for ordered, non-overlapping ranges inside the text, which is what Fuse.js reports. Other index lists are run through the same loop, but nothing is stated about them.
- AdminPage.ParsePage: reads any number of digits exactly. It does not model the loss of precision that JavaScript numbers have past 2^53, nor that a run of 309 or more digits parses to `Infinity`, which `Number.isFinite` rejects so that the source returns page 1 where the model returns the huge number.
- Pagination.ShowPages: requires more than one page, because the component returns `null` before building the window (`Pagination.Render` covers that case).
- Pagination: page slicing and `totalPages`: the functions computing them are not part of the shown source.
- Rendering: JSX markup, class names other than the heatmap shades, the legend, the charts (`app/dashboard/Charts.tsx`) and the editor are not modelled.
- Other files: the filesystem readers (`getSearchIndexData`, `parseMdxFile`, `parsePost`, `getArticleBySlug`), the generator scripts, middleware and authentication, and the health route have no logic to verify beyond I/O.
- MultiSelect.Selection: the `label` and `placeholder` props only affect rendering. The creatable variant, which has no `allowCreate` prop, is the same state with creating allowed.
- LeetCodeActions.UpdateSchema: faithful to the source. A blank `problemUrl` in the update form reads as "not supplied", so the form cannot clear a URL; the service could clear one when passed `null`.
