/**
 * lib/tags.ts: the older `#tag` extractor (a `#` followed by a run of
 * characters that are neither white space nor `#`, with no exclusions) and
 * the aggregation of tags over articles.
 */
module ContentTags {
  import opened Wrappers
  import opened Text
  import opened Seqs

  // ---------- /#([^\s#]+)/g ----------

  /** `[^\s#]`. */
  predicate IsBodyChar(c: char) {
    !IsSpace(c) && c != '#'
  }

  /** A captured name: one or more body characters. */
  predicate BodyToken(t: string) {
    |t| > 0 && forall i :: 0 <= i < |t| ==> IsBodyChar(t[i])
  }

  /** End of the greedy `[^\s#]+` run that starts at j. */
  function BodyEnd(s: string, j: nat): (e: nat)
    requires j <= |s|
    ensures j <= e <= |s|
    ensures forall k :: j <= k < e ==> IsBodyChar(s[k])
    ensures e == |s| || !IsBodyChar(s[e])
    decreases |s| - j
  {
    if j == |s| || !IsBodyChar(s[j]) then j else BodyEnd(s, j + 1)
  }

  /** The expression matches at i. */
  predicate IsHashTagStart(s: string, i: int) {
    0 <= i && i + 1 < |s| && s[i] == '#' && IsBodyChar(s[i + 1])
  }

  /** `TAG_REGEX.exec(content)` with `lastIndex == from`: start and end of the leftmost match. */
  function FindHashTag(s: string, from: nat): (m: Option<(nat, nat)>)
    ensures m.Some? ==> from <= m.value.0 && IsHashTagStart(s, m.value.0)
                        && m.value.1 == BodyEnd(s, m.value.0 + 1)
    ensures forall i :: from <= i < (if m.Some? then m.value.0 else |s|) ==> !IsHashTagStart(s, i)
    decreases |s| - from
  {
    if from >= |s| then None
    else if IsHashTagStart(s, from) then Some((from, BodyEnd(s, from + 1)))
    else FindHashTag(s, from + 1)
  }

  /** The captured names of the successive matches from `lastIndex == from` on. */
  function HashTokens(s: string, from: nat): (r: seq<string>)
    ensures forall k :: 0 <= k < |r| ==> BodyToken(r[k])
    decreases |s| - from
  {
    match FindHashTag(s, from)
    case None => []
    case Some((p, e)) => [s[p + 1..e]] + HashTokens(s, e)
  }

  lemma HashTokensStep(s: string, from: nat)
    requires FindHashTag(s, from).Some?
    ensures var m := FindHashTag(s, from).value;
            HashTokens(s, from) == [s[m.0 + 1..m.1]] + HashTokens(s, m.1)
  {
  }

  /** Every match position at or after from contributes its name. */
  lemma {:induction false} HashTokensComplete(s: string, from: nat, p: nat)
    requires from <= p && IsHashTagStart(s, p)
    ensures s[p + 1..BodyEnd(s, p + 1)] in HashTokens(s, from)
    decreases |s| - from
  {
    match FindHashTag(s, from)
    case None =>
      assert false;
    case Some((q, e)) =>
      if q != p {
        assert forall i :: q < i < e ==> s[i] != '#';
        HashTokensComplete(s, e, p);
      }
  }

  /** `extractTagsFromContent(content)` as a value: the names, each once, in first-seen order. */
  function ContentTagsSpec(content: string): seq<string> {
    Dedupe(HashTokens(content, 0))
  }

  /** `extractTagsFromContent(content)`: the regular-expression loop filling a `Set`. */
  method ExtractTagsFromContent(content: string) returns (tags: seq<string>)
    ensures tags == ContentTagsSpec(content)
  {
    // A JavaScript Set iterates in insertion order: the list of inserted values.
    var inserted: seq<string> := [];
    var lastIndex := 0;
    var m := FindHashTag(content, lastIndex);
    while m.Some?
      invariant lastIndex <= |content|
      invariant m == FindHashTag(content, lastIndex)
      invariant AddAll(inserted, HashTokens(content, lastIndex)) == AddAll([], HashTokens(content, 0))
      decreases |content| - lastIndex
    {
      var raw := content[m.value.0 + 1..m.value.1];
      var name := Trim(raw);
      AddStep(content, lastIndex, inserted);
      if name !in inserted {
        inserted := inserted + [name];
      }
      lastIndex := m.value.1;
      m := FindHashTag(content, lastIndex);
    }
    assert HashTokens(content, lastIndex) == [];
    assert inserted == AddAll([], HashTokens(content, 0));
    assert Dedupe<string>([]) == [];
    AddAllIsDedupe([], HashTokens(content, 0));
    assert [] + HashTokens(content, 0) == HashTokens(content, 0);
    tags := inserted;
  }

  /** One turn of the loop: the name is its own trim, and adding it consumes one match. */
  lemma AddStep(content: string, from: nat, inserted: seq<string>)
    requires FindHashTag(content, from).Some?
    ensures var m := FindHashTag(content, from).value;
            var raw := content[m.0 + 1..m.1];
            Trim(raw) == raw
            && AddAll(inserted, HashTokens(content, from))
               == AddAll(if raw in inserted then inserted else inserted + [raw], HashTokens(content, m.1))
  {
    var m := FindHashTag(content, from).value;
    var raw := content[m.0 + 1..m.1];
    assert BodyToken(raw);
    TrimOfTrimmed(raw);
    HashTokensStep(content, from);
    AddAllCons(inserted, raw, HashTokens(content, m.1));
  }

  /** Names are non-empty and hold neither white space nor `#`. */
  lemma ContentTagsAreTokens(content: string)
    ensures forall k :: 0 <= k < |ContentTagsSpec(content)| ==> BodyToken(ContentTagsSpec(content)[k])
  {
    var toks := HashTokens(content, 0);
    DedupeMeaning(toks);
    forall k | 0 <= k < |ContentTagsSpec(content)|
      ensures BodyToken(ContentTagsSpec(content)[k])
    {
      var t := ContentTagsSpec(content)[k];
      assert t in toks;
      var j :| 0 <= j < |toks| && toks[j] == t;
    }
  }

  /** Every match contributes its name, and the result is duplicate-free. */
  lemma ContentTagsComplete(content: string, p: nat)
    requires IsHashTagStart(content, p)
    ensures content[p + 1..BodyEnd(content, p + 1)] in ContentTagsSpec(content)
    ensures Distinct(ContentTagsSpec(content))
  {
    HashTokensComplete(content, 0, p);
    DedupeMeaning(HashTokens(content, 0));
  }

  /** No heading exclusion: "##Foo" yields "Foo", "#a#b" yields both names, "# x" yields nothing. */
  lemma ContentTagsExamples()
    ensures HashTokens("##Foo", 0) == ["Foo"]
    ensures HashTokens("#a#b", 0) == ["a", "b"]
    ensures HashTokens("# x", 0) == []
  {
    assert !IsHashTagStart("##Foo", 0) && IsHashTagStart("##Foo", 1);
    assert BodyEnd("##Foo", 2) == 5;
    assert FindHashTag("##Foo", 0) == Some((1, 5));
    assert "##Foo"[2..5] == "Foo";
    assert FindHashTag("##Foo", 5) == None;
    assert BodyEnd("#a#b", 1) == 2;
    assert FindHashTag("#a#b", 0) == Some((0, 2));
    assert BodyEnd("#a#b", 3) == 4;
    assert FindHashTag("#a#b", 2) == Some((2, 4));
    assert FindHashTag("#a#b", 4) == None;
    assert "#a#b"[1..2] == "a" && "#a#b"[3..4] == "b";
    assert !IsHashTagStart("# x", 0);
    assert FindHashTag("# x", 0) == None;
  }

  // ---------- aggregateTags ----------

  /** One input item of `aggregateTags`. */
  datatype TagSource = TagSource(slug: string, tags: seq<string>)

  /** The value stored per tag. */
  datatype TagAgg = TagAgg(count: nat, slugs: seq<string>)

  /** A JavaScript `Map`: its values and its keys in insertion order. */
  datatype TagMap = TagMap(keys: seq<string>, values: map<string, TagAgg>)

  /** One (slug, tag) pair per tag occurrence of an item. */
  function PairsOf(item: TagSource): (r: seq<(string, string)>)
    ensures |r| == |item.tags|
    ensures forall k :: 0 <= k < |r| ==> r[k] == (item.slug, item.tags[k])
  {
    seq(|item.tags|, k requires 0 <= k < |item.tags| => (item.slug, item.tags[k]))
  }

  /** The (slug, tag) pairs the nested loops visit, in visiting order. */
  function Pairs(items: seq<TagSource>): seq<(string, string)> {
    if items == [] then [] else Pairs(items[..|items| - 1]) + PairsOf(items[|items| - 1])
  }

  /** The map after visiting the pairs, one `get`-then-update step per pair. */
  function AggregatePairs(ps: seq<(string, string)>): TagMap {
    if ps == [] then TagMap([], map[])
    else
      var m := AggregatePairs(ps[..|ps| - 1]);
      var (slug, tag) := ps[|ps| - 1];
      if tag in m.values then
        TagMap(m.keys, m.values[tag := TagAgg(m.values[tag].count + 1, m.values[tag].slugs + [slug])])
      else
        TagMap(m.keys + [tag], m.values[tag := TagAgg(1, [slug])])
  }

  /** The tags of the visited pairs, in order. */
  function TagsOf(ps: seq<(string, string)>): (r: seq<string>)
    ensures |r| == |ps|
    ensures forall k :: 0 <= k < |r| ==> r[k] == ps[k].1
  {
    seq(|ps|, k requires 0 <= k < |ps| => ps[k].1)
  }

  /** The slugs of the pairs carrying tag, in order. */
  function SlugsTagged(ps: seq<(string, string)>, tag: string): seq<string> {
    if ps == [] then []
    else SlugsTagged(ps[..|ps| - 1], tag) + (if ps[|ps| - 1].1 == tag then [ps[|ps| - 1].0] else [])
  }

  /** The keys are the distinct tags in first-occurrence order, and exactly the keys have values. */
  lemma {:induction false} AggregateKeys(ps: seq<(string, string)>)
    ensures var m := AggregatePairs(ps);
            m.keys == Dedupe(TagsOf(ps)) && forall t :: t in m.values <==> t in m.keys
  {
    if ps != [] {
      var init := ps[..|ps| - 1];
      AggregateKeys(init);
      DedupeMeaning(TagsOf(init));
      assert TagsOf(ps) == TagsOf(init) + [ps[|ps| - 1].1];
      assert TagsOf(ps)[..|ps| - 1] == TagsOf(init);
    }
  }

  /** Each tag's slugs are the slugs of its occurrences in order, and its count their number. */
  lemma {:induction false} AggregateValues(ps: seq<(string, string)>, t: string)
    ensures var m := AggregatePairs(ps);
            t in m.values ==> m.values[t].slugs == SlugsTagged(ps, t) && m.values[t].count == |SlugsTagged(ps, t)|
  {
    if ps != [] {
      var init := ps[..|ps| - 1];
      AggregateValues(init, t);
      var m := AggregatePairs(init);
      if t !in m.values && t == ps[|ps| - 1].1 {
        AggregateKeys(init);
        DedupeMeaning(TagsOf(init));
        assert t !in TagsOf(init);
        SlugsTaggedAbsent(init, t);
      }
    }
  }

  /** A tag absent from the pairs has no slugs. */
  lemma {:induction false} SlugsTaggedAbsent(ps: seq<(string, string)>, t: string)
    requires t !in TagsOf(ps)
    ensures SlugsTagged(ps, t) == []
  {
    if ps != [] {
      var init := ps[..|ps| - 1];
      assert forall k :: 0 <= k < |init| ==> TagsOf(init)[k] == TagsOf(ps)[k];
      SlugsTaggedAbsent(init, t);
    }
  }

  lemma {:induction false} SlugsTaggedAppend(a: seq<(string, string)>, b: seq<(string, string)>, t: string)
    ensures SlugsTagged(a + b, t) == SlugsTagged(a, t) + SlugsTagged(b, t)
    decreases |b|
  {
    if b == [] {
      assert a + b == a;
    } else {
      assert (a + b)[..|a + b| - 1] == a + b[..|b| - 1];
      SlugsTaggedAppend(a, b[..|b| - 1], t);
    }
  }

  /** How often t occurs in a list. */
  function Count(xs: seq<string>, t: string): nat {
    if xs == [] then 0 else Count(xs[..|xs| - 1], t) + (if xs[|xs| - 1] == t then 1 else 0)
  }

  /** The number of occurrences of t across all items' tag lists. */
  function Occurrences(items: seq<TagSource>, t: string): nat {
    if items == [] then 0 else Occurrences(items[..|items| - 1], t) + Count(items[|items| - 1].tags, t)
  }

  lemma {:induction false} SlugsTaggedOfItem(item: TagSource, n: nat, t: string)
    requires n <= |item.tags|
    ensures |SlugsTagged(PairsOf(item)[..n], t)| == Count(item.tags[..n], t)
  {
    if n > 0 {
      SlugsTaggedOfItem(item, n - 1, t);
      assert PairsOf(item)[..n][..n - 1] == PairsOf(item)[..n - 1];
      assert item.tags[..n][..n - 1] == item.tags[..n - 1];
    }
  }

  /** A tag's count is its number of occurrences over all items. */
  lemma {:induction false} SlugCountIsOccurrences(items: seq<TagSource>, t: string)
    ensures |SlugsTagged(Pairs(items), t)| == Occurrences(items, t)
  {
    if items != [] {
      var last := items[|items| - 1];
      SlugCountIsOccurrences(items[..|items| - 1], t);
      SlugsTaggedAppend(Pairs(items[..|items| - 1]), PairsOf(last), t);
      SlugsTaggedOfItem(last, |last.tags|, t);
      assert PairsOf(last)[..|last.tags|] == PairsOf(last);
      assert last.tags[..|last.tags|] == last.tags;
    }
  }

  /** `aggregateTags(items)`: nested loops updating the map entry of each tag. */
  method AggregateTags(items: seq<TagSource>) returns (m: TagMap)
    ensures m == AggregatePairs(Pairs(items))
  {
    m := TagMap([], map[]);
    for i := 0 to |items|
      invariant m == AggregatePairs(Pairs(items[..i]))
    {
      assert items[..i + 1][..i] == items[..i];
      m := AddItemTags(m, Pairs(items[..i]), items[i]);
    }
    assert items[..|items|] == items;
  }

  /** The inner loop: the pairs of one item visited after those already done. */
  method AddItemTags(m0: TagMap, ghost done: seq<(string, string)>, item: TagSource) returns (m: TagMap)
    requires m0 == AggregatePairs(done)
    ensures m == AggregatePairs(done + PairsOf(item))
  {
    m := m0;
    assert done + PairsOf(item)[..0] == done;
    for k := 0 to |item.tags|
      invariant m == AggregatePairs(done + PairsOf(item)[..k])
    {
      var tag := item.tags[k];
      ghost var next := done + PairsOf(item)[..k + 1];
      assert next[..|next| - 1] == done + PairsOf(item)[..k];
      assert next[|next| - 1] == (item.slug, tag);
      if tag in m.values {
        var existing := m.values[tag];
        m := TagMap(m.keys, m.values[tag := TagAgg(existing.count + 1, existing.slugs + [item.slug])]);
      } else {
        m := TagMap(m.keys + [tag], m.values[tag := TagAgg(1, [item.slug])]);
      }
    }
    assert PairsOf(item)[..|item.tags|] == PairsOf(item);
  }

  /** The keys are exactly the tags of the items. */
  lemma {:induction false} PairsTags(items: seq<TagSource>, t: string)
    ensures t in TagsOf(Pairs(items)) <==> exists i :: 0 <= i < |items| && t in items[i].tags
  {
    if items != [] {
      var init := items[..|items| - 1];
      var last := items[|items| - 1];
      PairsTags(init, t);
      var ps := Pairs(items);
      assert ps == Pairs(init) + PairsOf(last);
      assert TagsOf(ps) == TagsOf(Pairs(init)) + last.tags;
      if exists i :: 0 <= i < |items| && t in items[i].tags {
        var i :| 0 <= i < |items| && t in items[i].tags;
        if i < |items| - 1 {
          assert init[i] == items[i];
        }
      }
      if exists i :: 0 <= i < |init| && t in init[i].tags {
        var i :| 0 <= i < |init| && t in init[i].tags;
        assert items[i] == init[i];
      }
    }
  }

  /** What `aggregateTags` promises: keys, counts and slugs. */
  lemma AggregateTagsMeaning(items: seq<TagSource>, t: string)
    ensures var m := AggregatePairs(Pairs(items));
            (t in m.values <==> exists i :: 0 <= i < |items| && t in items[i].tags)
            && (t in m.values ==>
                  m.values[t].count == Occurrences(items, t) && m.values[t].slugs == SlugsTagged(Pairs(items), t))
            && Distinct(m.keys)
  {
    AggregateKeys(Pairs(items));
    DedupeMeaning(TagsOf(Pairs(items)));
    AggregateValues(Pairs(items), t);
    PairsTags(items, t);
    SlugCountIsOccurrences(items, t);
  }
}
