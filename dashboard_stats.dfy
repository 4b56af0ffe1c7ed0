/**
 * lib/dashboard-stats.ts: the dashboard figures computed over the post
 * index: LeetCode count, difficulty distribution (explicit or inferred from
 * tags), the ten largest tags, a six-month trend and a 364-day activity map.
 *
 * Months are counted as `year * 12 + (month - 1)` and days by day numbers
 * (see Dates). The post index and the tag index are inputs; `now` is the
 * local date of the run.
 */
module DashboardStats {
  import opened Wrappers
  import opened Text
  import opened Dates
  import opened Articles
  import opened Seqs

  const TOP_TAGS_COUNT: nat := 10
  const TREND_MONTHS: nat := 6
  const HEATMAP_DAYS: nat := 364

  // ---------- inferDifficulty ----------

  /** Some tag is, lower-cased, exactly name. */
  predicate HasTagLower(tags: seq<string>, name: string) {
    exists i :: 0 <= i < |tags| && Lower(tags[i]) == name
  }

  /** `inferDifficulty(difficulty, tags)`. */
  function InferDifficulty(difficulty: Option<Level>, tags: seq<string>): (r: Option<Level>)
  {
    if difficulty.Some? then difficulty
    else
      var lower := seq(|tags|, i requires 0 <= i < |tags| => Lower(tags[i]));
      if "easy" in lower then Some(Easy)
      else if "medium" in lower then Some(Medium)
      else if "hard" in lower then Some(Hard)
      else None
  }

  /**
   * An explicit difficulty wins; otherwise the first of easy, medium, hard
   * found among the lower-cased tags, and none when no tag names one.
   */
  lemma InferDifficultyMeaning(difficulty: Option<Level>, tags: seq<string>)
    ensures var r := InferDifficulty(difficulty, tags);
            (difficulty.Some? ==> r == difficulty)
            && (difficulty.None? ==>
                  (r == Some(Easy) <==> HasTagLower(tags, "easy"))
                  && (r == Some(Medium) <==> !HasTagLower(tags, "easy") && HasTagLower(tags, "medium"))
                  && (r == Some(Hard) <==> !HasTagLower(tags, "easy") && !HasTagLower(tags, "medium")
                                           && HasTagLower(tags, "hard"))
                  && (r.None? <==> !HasTagLower(tags, "easy") && !HasTagLower(tags, "medium")
                                   && !HasTagLower(tags, "hard")))
  {
    var lower := seq(|tags|, i requires 0 <= i < |tags| => Lower(tags[i]));
    forall name | name in ["easy", "medium", "hard"]
      ensures name in lower <==> HasTagLower(tags, name)
    {
      if name in lower {
        var i :| 0 <= i < |lower| && lower[i] == name;
        assert Lower(tags[i]) == name;
      }
      if HasTagLower(tags, name) {
        var i :| 0 <= i < |tags| && Lower(tags[i]) == name;
        assert lower[i] == name;
      }
    }
  }

  // ---------- counts over the posts ----------

  /** `p.category === 'leetcode' || p.tags.some(t => t.toLowerCase() === 'leetcode')`. */
  predicate IsLeetCodePost(p: Article) {
    p.category == LeetCodeCategory || HasTagLower(p.tags, "leetcode")
  }

  function LeetCodeCount(posts: seq<Article>): (n: nat)
    ensures n <= |posts|
  {
    if posts == [] then 0
    else LeetCodeCount(posts[..|posts| - 1]) + (if IsLeetCodePost(posts[|posts| - 1]) then 1 else 0)
  }

  /** `posts.filter(IsLeetCodePost).length`: the count is the length of the filtered list. */
  lemma {:induction false} LeetCodeCountIsFilter(posts: seq<Article>)
    ensures LeetCodeCount(posts) == |Filter(posts, IsLeetCodePost)|
  {
    if posts != [] {
      var init, last := posts[..|posts| - 1], posts[|posts| - 1];
      assert posts == init + [last];
      LeetCodeCountIsFilter(init);
      FilterAppend(init, [last], IsLeetCodePost);
      FilterCons(last, [], IsLeetCodePost);
      assert [last] + [] == [last];
    }
  }

  /** The posts whose inferred difficulty is l. */
  function InferredCount(posts: seq<Article>, l: Level): nat {
    if posts == [] then 0
    else
      var p := posts[|posts| - 1];
      InferredCount(posts[..|posts| - 1], l) + (if InferDifficulty(p.difficulty, p.tags) == Some(l) then 1 else 0)
  }

  /** Each post is counted under at most one difficulty. */
  lemma {:induction false} InferredCountsBound(posts: seq<Article>)
    ensures InferredCount(posts, Easy) + InferredCount(posts, Medium) + InferredCount(posts, Hard) <= |posts|
  {
    if posts != [] {
      InferredCountsBound(posts[..|posts| - 1]);
    }
  }

  datatype DifficultyDistribution = DifficultyDistribution(easy: nat, medium: nat, hard: nat)

  /** The loop incrementing `difficultyDistribution[d]`. */
  method CountDifficulties(posts: seq<Article>) returns (dist: DifficultyDistribution)
    ensures dist == DifficultyDistribution(InferredCount(posts, Easy), InferredCount(posts, Medium),
                                           InferredCount(posts, Hard))
    ensures dist.easy + dist.medium + dist.hard <= |posts|
  {
    dist := DifficultyDistribution(0, 0, 0);
    for i := 0 to |posts|
      invariant dist == DifficultyDistribution(InferredCount(posts[..i], Easy), InferredCount(posts[..i], Medium),
                                               InferredCount(posts[..i], Hard))
    {
      var p := posts[i];
      assert posts[..i + 1][..i] == posts[..i];
      var d := InferDifficulty(p.difficulty, p.tags);
      if d == Some(Easy) {
        dist := dist.(easy := dist.easy + 1);
      } else if d == Some(Medium) {
        dist := dist.(medium := dist.medium + 1);
      } else if d == Some(Hard) {
        dist := dist.(hard := dist.hard + 1);
      }
    }
    assert posts[..|posts|] == posts;
    InferredCountsBound(posts);
  }

  // ---------- topTags ----------

  /** `{ tag, count }`. */
  datatype TagCount = TagCount(tag: string, count: nat)

  /** Non-increasing by count. */
  predicate ByCountDesc(xs: seq<TagCount>) {
    forall i, j :: 0 <= i < j < |xs| ==> xs[i].count >= xs[j].count
  }

  /** The entries with count c, in order. */
  function WithCount(xs: seq<TagCount>, c: nat): seq<TagCount> {
    if xs == [] then [] else (if xs[0].count == c then [xs[0]] else []) + WithCount(xs[1..], c)
  }

  /** r is ys with x added in front of its tie class: x joins the entries of its count first, and nothing else changes. */
  ghost predicate Inserted(r: seq<TagCount>, x: TagCount, ys: seq<TagCount>) {
    && |r| == |ys| + 1
    && (forall c :: WithCount(r, c) == (if x.count == c then [x] else []) + WithCount(ys, c))
    && (forall k :: 0 <= k < |r| ==> r[k] == x || r[k] in ys)
  }

  /** Inserts x, which preceded every element of ys, before the first element not larger than it. */
  function InsertDesc(x: TagCount, ys: seq<TagCount>): (r: seq<TagCount>)
    requires ByCountDesc(ys)
    ensures ByCountDesc(r) && Inserted(r, x, ys)
  {
    if ys != [] && ys[0].count > x.count then
      var rest := InsertDesc(x, ys[1..]);
      InsertBehind(x, ys, rest);
      [ys[0]] + rest
    else
      InsertInFront(x, ys);
      [x] + ys
  }

  /** Inserting in front of a head that is not larger. */
  lemma InsertInFront(x: TagCount, ys: seq<TagCount>)
    requires ByCountDesc(ys) && (ys == [] || ys[0].count <= x.count)
    ensures ByCountDesc([x] + ys) && Inserted([x] + ys, x, ys)
  {
    var r := [x] + ys;
    assert r[1..] == ys;
    forall i, j | 0 <= i < j < |r|
      ensures r[i].count >= r[j].count
    {
      if i == 0 {
        assert r[j] == ys[j - 1];
      }
    }
    forall c
      ensures WithCount(r, c) == (if x.count == c then [x] else []) + WithCount(ys, c)
    {
      WithCountCons(x, ys, c);
    }
  }

  /** Inserting behind a larger head: the head stays in front of the insertion into the tail. */
  lemma InsertBehind(x: TagCount, ys: seq<TagCount>, rest: seq<TagCount>)
    requires ys != [] && ys[0].count > x.count && ByCountDesc(ys)
    requires ByCountDesc(rest) && Inserted(rest, x, ys[1..])
    ensures ByCountDesc([ys[0]] + rest) && Inserted([ys[0]] + rest, x, ys)
  {
    var r := [ys[0]] + rest;
    assert r[1..] == rest;
    forall i, j | 0 <= i < j < |r|
      ensures r[i].count >= r[j].count
    {
      if i == 0 {
        assert r[j] == x || r[j] in ys[1..];
      }
    }
    forall c
      ensures WithCount(r, c) == (if x.count == c then [x] else []) + WithCount(ys, c)
    {
      WithCountCons(ys[0], rest, c);
      WithCountCons(ys[0], ys[1..], c);
      assert [ys[0]] + ys[1..] == ys;
    }
  }

  lemma WithCountCons(h: TagCount, t: seq<TagCount>, c: nat)
    ensures WithCount([h] + t, c) == (if h.count == c then [h] else []) + WithCount(t, c)
  {
    assert ([h] + t)[1..] == t;
  }

  /** `.sort((a, b) => b.count - a.count)` on the stable sort JavaScript guarantees. */
  function SortByCountDesc(xs: seq<TagCount>): (r: seq<TagCount>)
    ensures ByCountDesc(r)
    ensures |r| == |xs|
    ensures forall c :: WithCount(r, c) == WithCount(xs, c)
  {
    if xs == [] then [] else InsertDesc(xs[0], SortByCountDesc(xs[1..]))
  }

  /** Two orderings that are both non-increasing and keep every tie class in order are equal. */
  lemma {:induction false} StableSortUnique(r: seq<TagCount>, s: seq<TagCount>)
    requires ByCountDesc(r) && ByCountDesc(s)
    requires forall c :: WithCount(r, c) == WithCount(s, c)
    ensures r == s
    decreases |r| + |s|
  {
    if r == [] || s == [] {
      assert r != [] ==> WithCount(r, r[0].count) != [] && WithCount(s, r[0].count) == [];
      assert s != [] ==> WithCount(s, s[0].count) != [] && WithCount(r, s[0].count) == [];
    } else {
      var a, b := r[0], s[0];
      HeadOfMax(r, s, a.count, b.count);
      HeadOfMax(s, r, b.count, a.count);
      assert a.count == b.count;
      assert WithCount(r, a.count)[0] == a;
      assert WithCount(s, a.count)[0] == b;
      forall c
        ensures WithCount(r[1..], c) == WithCount(s[1..], c)
      {
        assert WithCount(r, c) == (if a.count == c then [a] else []) + WithCount(r[1..], c);
        assert WithCount(s, c) == (if b.count == c then [b] else []) + WithCount(s[1..], c);
        if a.count == c {
          assert ([a] + WithCount(r[1..], c))[1..] == WithCount(r[1..], c);
          assert ([b] + WithCount(s[1..], c))[1..] == WithCount(s[1..], c);
        } else {
          assert [] + WithCount(r[1..], c) == WithCount(r[1..], c);
          assert [] + WithCount(s[1..], c) == WithCount(s[1..], c);
        }
      }
      StableSortUnique(r[1..], s[1..]);
      assert r == [a] + r[1..] && s == [b] + s[1..];
    }
  }

  /** The head count of a non-increasing list bounds the counts of the other list with the same tie classes. */
  lemma HeadOfMax(r: seq<TagCount>, s: seq<TagCount>, ca: nat, cb: nat)
    requires ByCountDesc(r) && r != [] && s != [] && r[0].count == ca && s[0].count == cb
    requires forall c :: WithCount(r, c) == WithCount(s, c)
    ensures cb <= ca
  {
    assert WithCount(s, cb) != [];
    WithCountMember(r, cb);
  }

  /** An element of count c sits in r when WithCount(r, c) is non-empty; in a non-increasing r it is at most the head. */
  lemma {:induction false} WithCountMember(r: seq<TagCount>, c: nat)
    requires ByCountDesc(r) && WithCount(r, c) != []
    ensures r != [] && c <= r[0].count
  {
    if r[0].count != c {
      WithCountMember(r[1..], c);
      assert r[1..][0] == r[1];
    }
  }

  /** `.slice(0, TOP_TAGS_COUNT)` of the sorted entries. */
  function TopTags(entries: seq<TagCount>): (r: seq<TagCount>)
    ensures |r| <= TOP_TAGS_COUNT && ByCountDesc(r)
    ensures |r| == if |entries| < TOP_TAGS_COUNT then |entries| else TOP_TAGS_COUNT
    ensures r == SortByCountDesc(entries)[..|r|]
  {
    var sorted := SortByCountDesc(entries);
    if |sorted| <= TOP_TAGS_COUNT then sorted else sorted[..TOP_TAGS_COUNT]
  }

  /** `Array.from(tagsIndex.entries()).map(([tag, list]) => ({ tag, count: list.length }))`. */
  function TagCounts(tagsIndex: seq<(string, seq<string>)>): (r: seq<TagCount>)
    ensures |r| == |tagsIndex|
    ensures forall i :: 0 <= i < |r| ==> r[i] == TagCount(tagsIndex[i].0, |tagsIndex[i].1|)
  {
    seq(|tagsIndex|, i requires 0 <= i < |tagsIndex| => TagCount(tagsIndex[i].0, |tagsIndex[i].1|))
  }

  // ---------- trendLast6Months ----------

  /** `getMonthKey(d)`: the year and the two-digit month. */
  function MonthKey(c: ValidDate): string {
    IntToString(c.year) + "-" + Pad2(c.month)
  }

  /** Month keys identify the month: equal keys mean the same year and month. */
  lemma MonthKeyInjective(a: ValidDate, b: ValidDate)
    requires MonthKey(a) == MonthKey(b)
    ensures a.year == b.year && a.month == b.month
  {
    Pad2Digits(a.month);
    Pad2Digits(b.month);
    DashFields2(IntToString(a.year), Pad2(a.month), IntToString(b.year), Pad2(b.month));
    IntToStringInjective(a.year, b.year);
  }

  /** The i-th key of the trend window: the month `TREND_MONTHS - 1 - i` months before now. */
  function WindowMonth(now: ValidDate, i: nat): ValidDate {
    MonthOf(MonthIndex(now) - (TREND_MONTHS - 1) + i)
  }

  /** The countdown loop pushing `getMonthKey(new Date(y, m - i, 1))`. */
  method MonthKeys(now: ValidDate) returns (keys: seq<string>)
    ensures |keys| == TREND_MONTHS
    ensures forall i :: 0 <= i < TREND_MONTHS ==> keys[i] == MonthKey(WindowMonth(now, i))
  {
    keys := [];
    var i: int := TREND_MONTHS - 1;
    while i >= 0
      invariant -1 <= i <= TREND_MONTHS - 1
      invariant |keys| == TREND_MONTHS - 1 - i
      invariant forall k :: 0 <= k < |keys| ==> keys[k] == MonthKey(WindowMonth(now, k))
    {
      var d := MonthOf(MonthIndex(now) - i);
      assert d == WindowMonth(now, |keys|);
      keys := keys + [MonthKey(d)];
      i := i - 1;
    }
  }

  /** The window is six consecutive months, oldest first, ending with the month of now, all keys distinct. */
  lemma TrendWindow(now: ValidDate)
    ensures forall i :: 0 <= i < TREND_MONTHS ==> MonthIndex(WindowMonth(now, i)) == MonthIndex(now) - 5 + i
    ensures WindowMonth(now, TREND_MONTHS - 1).year == now.year
            && WindowMonth(now, TREND_MONTHS - 1).month == now.month
    ensures forall i, j :: 0 <= i < j < TREND_MONTHS ==> MonthKey(WindowMonth(now, i)) != MonthKey(WindowMonth(now, j))
  {
    var last := WindowMonth(now, TREND_MONTHS - 1);
    assert MonthIndex(last) == MonthIndex(now);
    forall i, j | 0 <= i < j < TREND_MONTHS
      ensures MonthKey(WindowMonth(now, i)) != MonthKey(WindowMonth(now, j))
    {
      if MonthKey(WindowMonth(now, i)) == MonthKey(WindowMonth(now, j)) {
        MonthKeyInjective(WindowMonth(now, i), WindowMonth(now, j));
      }
    }
  }

  /** The dated posts whose month key is key. */
  function MonthCount(posts: seq<Article>, key: string): (n: nat)
    ensures n <= |posts|
  {
    if posts == [] then 0
    else
      var p := posts[|posts| - 1];
      MonthCount(posts[..|posts| - 1], key) + (if p.date.Some? && MonthKey(p.date.value.civil) == key then 1 else 0)
  }

  /** Counting by key counts the posts of that calendar month. */
  lemma {:induction false} MonthCountByMonth(posts: seq<Article>, c: ValidDate)
    ensures MonthCount(posts, MonthKey(c)) == DatedInMonth(posts, c.year, c.month)
  {
    if posts != [] {
      MonthCountByMonth(posts[..|posts| - 1], c);
      var p := posts[|posts| - 1];
      if p.date.Some? && MonthKey(p.date.value.civil) == MonthKey(c) {
        MonthKeyInjective(p.date.value.civil, c);
      }
    }
  }

  /** The dated posts of a calendar month. */
  function DatedInMonth(posts: seq<Article>, year: int, month: int): nat {
    if posts == [] then 0
    else
      var p := posts[|posts| - 1];
      DatedInMonth(posts[..|posts| - 1], year, month)
      + (if p.date.Some? && p.date.value.civil.year == year && p.date.value.civil.month == month then 1 else 0)
  }

  /** `{ month, count }`. */
  datatype TrendMonth = TrendMonth(month: string, count: nat)

  /** The trend map filled from the posts, then read back in window order. */
  method Trend(posts: seq<Article>, keys: seq<string>) returns (trend: seq<TrendMonth>)
    ensures |trend| == |keys|
    ensures forall i :: 0 <= i < |keys| ==> trend[i] == TrendMonth(keys[i], MonthCount(posts, keys[i]))
  {
    var trendMap: map<string, nat> := map k | k in keys :: 0;
    for i := 0 to |posts|
      invariant forall k :: k in trendMap <==> k in keys
      invariant forall k :: k in trendMap ==> trendMap[k] == MonthCount(posts[..i], k)
    {
      var p := posts[i];
      if p.date.Some? {
        var key := MonthKey(p.date.value.civil);
        if key in trendMap {
          trendMap := trendMap[key := trendMap[key] + 1];
        }
      }
      forall k | k in trendMap
        ensures trendMap[k] == MonthCount(posts[..i + 1], k)
      {
        MonthCountStep(posts, i, k);
      }
    }
    assert posts[..|posts|] == posts;
    trend := seq(|keys|, i requires 0 <= i < |keys| => TrendMonth(keys[i], trendMap[keys[i]]));
  }

  /** One more post counts towards its own month only. */
  lemma MonthCountStep(posts: seq<Article>, i: nat, key: string)
    requires i < |posts|
    ensures MonthCount(posts[..i + 1], key) == MonthCount(posts[..i], key)
              + (if posts[i].date.Some? && MonthKey(posts[i].date.value.civil) == key then 1 else 0)
  {
    assert posts[..i + 1][..i] == posts[..i];
  }

  // ---------- activityByDay ----------

  /** The dated posts falling on day d. */
  function DayCount(posts: seq<Article>, d: int): (n: nat)
    ensures n <= |posts|
  {
    if posts == [] then 0
    else
      var p := posts[|posts| - 1];
      DayCount(posts[..|posts| - 1], d) + (if p.date.Some? && p.date.value.day == d then 1 else 0)
  }

  /** The 364 days ending today, each with its number of posts. */
  method Activity(posts: seq<Article>, today: int) returns (activity: map<int, nat>)
    ensures forall d :: d in activity <==> today - (HEATMAP_DAYS - 1) <= d <= today
    ensures forall d :: d in activity ==> activity[d] == DayCount(posts, d)
  {
    activity := map[];
    for i := 0 to HEATMAP_DAYS
      invariant forall d :: d in activity <==> today - i < d <= today
      invariant forall d :: d in activity ==> activity[d] == 0
    {
      activity := activity[today - i := 0];
    }
    for i := 0 to |posts|
      invariant forall d :: d in activity <==> today - (HEATMAP_DAYS - 1) <= d <= today
      invariant forall d :: d in activity ==> activity[d] == DayCount(posts[..i], d)
    {
      var p := posts[i];
      assert posts[..i + 1][..i] == posts[..i];
      if p.date.Some? {
        var key := p.date.value.day;
        if key in activity {
          activity := activity[key := activity[key] + 1];
        }
      }
    }
    assert posts[..|posts|] == posts;
  }

  // ---------- buildDashboardStatsJson ----------

  datatype DashboardStatsJson = DashboardStatsJson(
    totalArticles: nat,
    leetcodeCount: nat,
    difficultyDistribution: DifficultyDistribution,
    topTags: seq<TagCount>,
    trendLast6Months: seq<TrendMonth>,
    activityByDay: map<int, nat>)

  /** `buildDashboardStatsJson()` over the given post index, tag index and local date. */
  method BuildDashboardStatsJson(posts: seq<Article>, tagsIndex: seq<(string, seq<string>)>, now: LocalDay)
    returns (stats: DashboardStatsJson)
    ensures stats.totalArticles == |posts|
    ensures stats.leetcodeCount == LeetCodeCount(posts) <= |posts|
    ensures var d := stats.difficultyDistribution;
            d == DifficultyDistribution(InferredCount(posts, Easy), InferredCount(posts, Medium), InferredCount(posts, Hard))
            && d.easy + d.medium + d.hard <= |posts|
    ensures stats.topTags == TopTags(TagCounts(tagsIndex))
    ensures |stats.trendLast6Months| == TREND_MONTHS
    ensures forall i :: 0 <= i < TREND_MONTHS ==>
              var key := MonthKey(WindowMonth(now.civil, i));
              stats.trendLast6Months[i] == TrendMonth(key, MonthCount(posts, key))
    ensures forall d :: d in stats.activityByDay <==> now.day - (HEATMAP_DAYS - 1) <= d <= now.day
    ensures forall d :: d in stats.activityByDay ==> stats.activityByDay[d] == DayCount(posts, d)
  {
    var dist := CountDifficulties(posts);
    var topTags := TopTags(TagCounts(tagsIndex));
    var keys := MonthKeys(now.civil);
    var trend := Trend(posts, keys);
    var activity := Activity(posts, now.day);
    stats := DashboardStatsJson(|posts|, LeetCodeCount(posts), dist, topTags, trend, activity);
  }

  /** The trend counts add up to at most the number of posts: each post falls in at most one month. */
  lemma {:induction false} TrendSumBound(posts: seq<Article>, now: ValidDate)
    ensures MonthCount(posts, MonthKey(WindowMonth(now, 0))) + MonthCount(posts, MonthKey(WindowMonth(now, 1)))
            + MonthCount(posts, MonthKey(WindowMonth(now, 2))) + MonthCount(posts, MonthKey(WindowMonth(now, 3)))
            + MonthCount(posts, MonthKey(WindowMonth(now, 4))) + MonthCount(posts, MonthKey(WindowMonth(now, 5)))
            <= |posts|
  {
    if posts != [] {
      TrendWindow(now);
      TrendSumBound(posts[..|posts| - 1], now);
    }
  }
}
