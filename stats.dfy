/**
 * lib/stats.ts: the article statistics (totals per category and per
 * difficulty, and the tag cloud from `aggregateTags`).
 */
module Stats {
  import opened Wrappers
  import opened Seqs
  import opened Articles
  import opened ContentTags

  /** A `TagEntry` of the tag cloud. */
  datatype TagEntry = TagEntry(tag: string, count: nat, slugs: seq<string>)

  /** `DashboardStats`; a `Record` key is present only once it has been counted. */
  datatype DashboardStats = DashboardStats(
    totalArticles: nat,
    byCategory: map<Category, nat>,
    byDifficulty: map<Level, nat>,
    tagCount: nat,
    tagCloud: seq<TagEntry>)

  /** `record[k] ?? 0`. */
  function Get<K>(m: map<K, nat>, k: K): nat {
    if k in m then m[k] else 0
  }

  function CategoryCount(articles: seq<Article>, c: Category): nat {
    if articles == [] then 0
    else CategoryCount(articles[..|articles| - 1], c) + (if articles[|articles| - 1].category == c then 1 else 0)
  }

  function DifficultyCount(articles: seq<Article>, d: Level): nat {
    if articles == [] then 0
    else DifficultyCount(articles[..|articles| - 1], d) + (if articles[|articles| - 1].difficulty == Some(d) then 1 else 0)
  }

  /** The articles without a difficulty. */
  function NoDifficultyCount(articles: seq<Article>): nat {
    if articles == [] then 0
    else NoDifficultyCount(articles[..|articles| - 1]) + (if articles[|articles| - 1].difficulty.None? then 1 else 0)
  }

  /** Every article has one category: the category counts sum to the total. */
  lemma {:induction false} CategoriesSum(articles: seq<Article>)
    ensures CategoryCount(articles, LeetCodeCategory) + CategoryCount(articles, Books) == |articles|
  {
    if articles != [] {
      CategoriesSum(articles[..|articles| - 1]);
    }
  }

  /** Only articles with a difficulty are counted, so the difficulty counts sum to at most the total. */
  lemma {:induction false} DifficultiesSum(articles: seq<Article>)
    ensures DifficultyCount(articles, Easy) + DifficultyCount(articles, Medium) + DifficultyCount(articles, Hard)
            + NoDifficultyCount(articles) == |articles|
  {
    if articles != [] {
      DifficultiesSum(articles[..|articles| - 1]);
      match articles[|articles| - 1].difficulty
      case None =>
      case Some(l) =>
        assert l == Easy || l == Medium || l == Hard;
    }
  }

  /** The items handed to `aggregateTags`. */
  function TagSources(articles: seq<Article>): (r: seq<TagSource>)
    ensures |r| == |articles|
    ensures forall i :: 0 <= i < |r| ==> r[i] == TagSource(articles[i].slug, articles[i].tags)
  {
    seq(|articles|, i requires 0 <= i < |articles| => TagSource(articles[i].slug, articles[i].tags))
  }

  /** `buildDashboardStats(articles)`. */
  method BuildDashboardStats(articles: seq<Article>) returns (stats: DashboardStats)
    ensures stats.totalArticles == |articles|
    ensures forall c :: Get(stats.byCategory, c) == CategoryCount(articles, c)
    ensures forall c :: c in stats.byCategory <==> CategoryCount(articles, c) > 0
    ensures forall d :: Get(stats.byDifficulty, d) == DifficultyCount(articles, d)
    ensures forall d :: d in stats.byDifficulty <==> DifficultyCount(articles, d) > 0
    ensures var m := AggregatePairs(Pairs(TagSources(articles)));
            |stats.tagCloud| == |m.keys| && stats.tagCount == |stats.tagCloud|
            && forall i :: 0 <= i < |m.keys| ==>
                 m.keys[i] in m.values
                 && stats.tagCloud[i] == TagEntry(m.keys[i], m.values[m.keys[i]].count, m.values[m.keys[i]].slugs)
  {
    var byCategory: map<Category, nat> := map[];
    var byDifficulty: map<Level, nat> := map[];
    for i := 0 to |articles|
      invariant forall c :: Get(byCategory, c) == CategoryCount(articles[..i], c)
      invariant forall c :: c in byCategory <==> CategoryCount(articles[..i], c) > 0
      invariant forall d :: Get(byDifficulty, d) == DifficultyCount(articles[..i], d)
      invariant forall d :: d in byDifficulty <==> DifficultyCount(articles[..i], d) > 0
    {
      var a := articles[i];
      assert articles[..i + 1][..i] == articles[..i];
      byCategory := byCategory[a.category := Get(byCategory, a.category) + 1];
      if a.difficulty.Some? {
        byDifficulty := byDifficulty[a.difficulty.value := Get(byDifficulty, a.difficulty.value) + 1];
      }
    }
    assert articles[..|articles|] == articles;
    var tagMap := AggregateTags(TagSources(articles));
    AggregateKeys(Pairs(TagSources(articles)));
    var tagCloud := seq(|tagMap.keys|, i requires 0 <= i < |tagMap.keys| =>
      var tag := tagMap.keys[i];
      TagEntry(tag, tagMap.values[tag].count, tagMap.values[tag].slugs));
    stats := DashboardStats(|articles|, byCategory, byDifficulty, |tagCloud|, tagCloud);
  }

  /**
   * The tag cloud has one entry per distinct tag of the articles, each
   * carrying its number of occurrences and the slugs of the articles, in order.
   */
  lemma TagCloudMeaning(articles: seq<Article>, t: string)
    ensures var m := AggregatePairs(Pairs(TagSources(articles)));
            Distinct(m.keys)
            && (t in m.keys <==> t in m.values)
            && (t in m.keys <==> exists j :: 0 <= j < |articles| && t in articles[j].tags)
            && (t in m.values ==> m.values[t].count == Occurrences(TagSources(articles), t))
  {
    var items := TagSources(articles);
    AggregateKeys(Pairs(items));
    AggregateTagsMeaning(items, t);
    if exists j :: 0 <= j < |items| && t in items[j].tags {
      var j :| 0 <= j < |items| && t in items[j].tags;
      assert t in articles[j].tags;
    }
    if exists j :: 0 <= j < |articles| && t in articles[j].tags {
      var j :| 0 <= j < |articles| && t in articles[j].tags;
      assert t in items[j].tags;
    }
  }
}
