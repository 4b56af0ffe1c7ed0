/**
 * The order JavaScript's `Array.prototype.sort()` uses for strings when no
 * comparator is given: lexicographic by character. Here a character is a
 * Unicode code point, where JavaScript compares UTF-16 code units; the two
 * orders agree on the Basic Multilingual Plane only.
 */
module StrOrder {
  import opened Seqs

  /** a sorts strictly before b. */
  predicate Less(a: string, b: string)
    decreases |a|
  {
    if a == [] then b != []
    else if b == [] then false
    else if a[0] != b[0] then a[0] < b[0]
    else Less(a[1..], b[1..])
  }

  lemma {:induction false} LessIrreflexive(a: string)
    ensures !Less(a, a)
    decreases |a|
  {
    if a != [] {
      LessIrreflexive(a[1..]);
    }
  }

  lemma {:induction false} LessAsymmetric(a: string, b: string)
    requires Less(a, b)
    ensures !Less(b, a)
    decreases |a|
  {
    if a != [] && b != [] && a[0] == b[0] {
      LessAsymmetric(a[1..], b[1..]);
    }
  }

  lemma {:induction false} LessTransitive(a: string, b: string, c: string)
    requires Less(a, b) && Less(b, c)
    ensures Less(a, c)
    decreases |a|
  {
    if a != [] && a[0] == b[0] && b[0] == c[0] {
      LessTransitive(a[1..], b[1..], c[1..]);
    }
  }

  lemma {:induction false} LessTotal(a: string, b: string)
    requires a != b
    ensures Less(a, b) || Less(b, a)
    decreases |a|
  {
    if a != [] && b != [] && a[0] == b[0] {
      assert a == [a[0]] + a[1..] && b == [b[0]] + b[1..];
      LessTotal(a[1..], b[1..]);
    }
  }

  /** Non-decreasing in the string order. */
  predicate Sorted(xs: seq<string>) {
    forall i, j :: 0 <= i < j < |xs| ==> !Less(xs[j], xs[i])
  }

  /** Strictly increasing in the string order (so also duplicate-free). */
  predicate StrictlySorted(xs: seq<string>) {
    forall i, j :: 0 <= i < j < |xs| ==> Less(xs[i], xs[j])
  }

  /** Every element of xs is at least x. */
  predicate AllAtLeast(xs: seq<string>, x: string) {
    forall j :: 0 <= j < |xs| ==> !Less(xs[j], x)
  }

  lemma NotLessTransitive(a: string, b: string, c: string)
    requires !Less(b, a) && !Less(c, b)
    ensures !Less(c, a)
  {
    if Less(c, a) {
      if a != b {
        LessTotal(a, b);
        if b != c {
          LessTotal(b, c);
          LessTransitive(a, b, c);
          LessAsymmetric(a, c);
        }
      }
    }
  }

  lemma SortedHeadBound(xs: seq<string>, x: string)
    requires Sorted(xs) && xs != [] && !Less(xs[0], x)
    ensures AllAtLeast(xs, x)
  {
    forall j | 0 <= j < |xs|
      ensures !Less(xs[j], x)
    {
      if j > 0 {
        NotLessTransitive(x, xs[0], xs[j]);
      }
    }
  }

  lemma SortedCons(x: string, xs: seq<string>)
    requires Sorted(xs) && AllAtLeast(xs, x)
    ensures Sorted([x] + xs)
  {
    var ys := [x] + xs;
    forall i, j | 0 <= i < j < |ys|
      ensures !Less(ys[j], ys[i])
    {
      if i > 0 {
        assert ys[i] == xs[i - 1] && ys[j] == xs[j - 1];
      } else {
        assert ys[j] == xs[j - 1];
      }
    }
  }

  function Insert(x: string, xs: seq<string>): (r: seq<string>)
    requires Sorted(xs)
    ensures Sorted(r)
    ensures multiset(r) == multiset(xs) + multiset{x}
  {
    if xs == [] then [x]
    else if !Less(xs[0], x) then
      SortedHeadBound(xs, x);
      SortedCons(x, xs);
      [x] + xs
    else
      var rest := Insert(x, xs[1..]);
      assert xs == [xs[0]] + xs[1..];
      assert AllAtLeast(rest, xs[0]) by {
        forall j | 0 <= j < |rest|
          ensures !Less(rest[j], xs[0])
        {
          assert rest[j] in multiset(rest);
          if rest[j] == x {
            LessAsymmetric(xs[0], x);
          } else {
            assert rest[j] in xs[1..];
          }
        }
      }
      SortedCons(xs[0], rest);
      [xs[0]] + rest
  }

  /** `xs.slice().sort()`: insertion sort by the string order. */
  function Sort(xs: seq<string>): (r: seq<string>)
    ensures Sorted(r)
    ensures multiset(r) == multiset(xs)
  {
    if xs == [] then []
    else
      assert xs == [xs[0]] + xs[1..];
      Insert(xs[0], Sort(xs[1..]))
  }

  lemma {:induction false} SortDistinct(xs: seq<string>)
    requires Distinct(xs)
    ensures Distinct(Sort(xs))
  {
    if xs != [] {
      var rest := Sort(xs[1..]);
      SortDistinct(xs[1..]);
      assert xs[0] !in xs[1..];
      assert xs[0] !in multiset(rest);
      InsertDistinct(xs[0], rest);
    }
  }

  lemma {:induction false} InsertDistinct(x: string, xs: seq<string>)
    requires Sorted(xs) && Distinct(xs) && x !in xs
    ensures Distinct(Insert(x, xs))
  {
    if xs != [] && Less(xs[0], x) {
      InsertDistinct(x, xs[1..]);
      var rest := Insert(x, xs[1..]);
      assert xs[0] !in multiset(rest);
    }
  }

  /** A sorted, duplicate-free list is strictly increasing. */
  lemma SortedDistinctStrict(xs: seq<string>)
    requires Sorted(xs) && Distinct(xs)
    ensures StrictlySorted(xs)
  {
    forall i, j | 0 <= i < j < |xs|
      ensures Less(xs[i], xs[j])
    {
      LessTotal(xs[i], xs[j]);
    }
  }

  /**
   * `Array.from(new Set(xs)).sort()`: the distinct values of xs in increasing order.
   */
  function SortedUnique(xs: seq<string>): (r: seq<string>)
    ensures StrictlySorted(r)
    ensures forall x :: x in r <==> x in xs
  {
    var d := Dedupe(xs);
    DedupeMeaning(xs);
    var r := Sort(d);
    SortDistinct(d);
    SortedDistinctStrict(r);
    assert forall x :: x in r <==> x in multiset(d);
    r
  }
}
