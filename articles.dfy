/**
 * lib/types.ts: the article records the static-content pages and the
 * statistics work on (front matter plus the parsed excerpt).
 */
module Articles {
  import opened Wrappers
  import opened Dates

  /** The front-matter `difficulty`: 'easy' | 'medium' | 'hard'. */
  datatype Level = Easy | Medium | Hard

  /** The front-matter `category`: 'leetcode' | 'books'. */
  datatype Category = LeetCodeCategory | Books

  /**
   * An `ArticleEntry`. `date` is the parsed front-matter date, `None` when it
   * is absent or empty.
   */
  datatype Article = Article(
    slug: string,
    title: string,
    date: Option<LocalDay>,
    difficulty: Option<Level>,
    category: Category,
    tags: seq<string>,
    excerpt: Option<string>)
}
