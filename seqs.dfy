/**
 * Sequence operations that several source files perform the same way:
 * trimming and dropping blank names, de-duplicating through a `Set`, and
 * toggling a value inside a selection list.
 */
module Seqs {
  import opened Text

  predicate Distinct<T(==)>(xs: seq<T>) {
    forall i, j :: 0 <= i < j < |xs| ==> xs[i] != xs[j]
  }

  /** `xs.flatMap(f)` once f has been applied: the concatenation of the lists. */
  function Flatten<T>(xss: seq<seq<T>>): (r: seq<T>)
    ensures forall i, k :: 0 <= i < |xss| && 0 <= k < |xss[i]| ==> xss[i][k] in r
    ensures forall k :: 0 <= k < |r| ==> exists i :: 0 <= i < |xss| && r[k] in xss[i]
  {
    if xss == [] then []
    else
      var rest := Flatten(xss[1..]);
      assert forall i :: 1 <= i < |xss| ==> xss[i] == xss[1..][i - 1];
      var r := xss[0] + rest;
      assert forall k :: |xss[0]| <= k < |r| ==> r[k] == rest[k - |xss[0]|];
      r
  }

  // ---------- names.map(s => s.trim()).filter(Boolean) ----------

  /** Names as the source keeps them: trimmed, and the blank ones dropped, in order. */
  function NormalizeNames(names: seq<string>): (r: seq<string>)
    ensures |r| <= |names|
    ensures forall i :: 0 <= i < |r| ==> r[i] != "" && IsTrimmed(r[i])
  {
    if names == [] then []
    else
      var t := Trim(names[0]);
      (if t == "" then [] else [t]) + NormalizeNames(names[1..])
  }

  /** Some name of the list trims to x. */
  predicate TrimsTo(names: seq<string>, x: string) {
    exists i :: 0 <= i < |names| && Trim(names[i]) == x
  }

  lemma TrimsToCons(names: seq<string>, x: string)
    requires names != []
    ensures TrimsTo(names, x) <==> Trim(names[0]) == x || TrimsTo(names[1..], x)
  {
    var f := (s: string) => Trim(s);
    HitsCons(names, f, x);
    assert TrimsTo(names, x) <==> Hits(names, f, x);
    assert TrimsTo(names[1..], x) <==> Hits(names[1..], f, x);
  }

  /** Some element of xs is mapped to x by f. */
  predicate Hits<T>(xs: seq<T>, f: T -> string, x: string) {
    exists i :: 0 <= i < |xs| && f(xs[i]) == x
  }

  lemma HitsCons<T>(xs: seq<T>, f: T -> string, x: string)
    requires xs != []
    ensures Hits(xs, f, x) <==> f(xs[0]) == x || Hits(xs[1..], f, x)
  {
    var rest := xs[1..];
    if Hits(xs, f, x) && f(xs[0]) != x {
      var i :| 0 <= i < |xs| && f(xs[i]) == x;
      assert rest[i - 1] == xs[i];
    }
    if Hits(rest, f, x) {
      var i :| 0 <= i < |rest| && f(rest[i]) == x;
      assert rest[i] == xs[i + 1];
    }
  }

  /** A name survives normalisation exactly when it is the non-empty trim of some input. */
  lemma {:induction false} NormalizeNamesMembers(names: seq<string>, x: string)
    ensures x in NormalizeNames(names) <==> x != "" && TrimsTo(names, x)
  {
    if names != [] {
      NormalizeNamesMembers(names[1..], x);
      TrimsToCons(names, x);
      var t := Trim(names[0]);
      assert NormalizeNames(names) == (if t == "" then [] else [t]) + NormalizeNames(names[1..]);
    }
  }

  /** Names that are already trimmed and non-empty pass through unchanged. */
  lemma {:induction false} NormalizeNamesOfNormal(names: seq<string>)
    requires forall i :: 0 <= i < |names| ==> names[i] != "" && IsTrimmed(names[i])
    ensures NormalizeNames(names) == names
  {
    if names != [] {
      TrimOfTrimmed(names[0]);
      NormalizeNamesOfNormal(names[1..]);
    }
  }

  /** Normalisation yields nothing exactly when every name is blank. */
  lemma {:induction false} NormalizeNamesEmpty(names: seq<string>)
    ensures NormalizeNames(names) == [] <==> forall i :: 0 <= i < |names| ==> IsBlank(names[i])
  {
    if names != [] {
      NormalizeNamesEmpty(names[1..]);
      assert forall i :: 1 <= i < |names| ==> names[i] == names[1..][i - 1];
    }
  }

  // ---------- Array.from(new Set(xs)) ----------

  /** The elements of xs in order of first occurrence, each once (a `Set` filled from xs). */
  function Dedupe<T(==)>(xs: seq<T>): (r: seq<T>)
    ensures |r| <= |xs|
  {
    if xs == [] then []
    else
      var d := Dedupe(xs[..|xs| - 1]);
      var x := xs[|xs| - 1];
      if x in d then d else d + [x]
  }

  /** De-duplication keeps exactly the values of xs, each once. */
  lemma {:induction false} DedupeMeaning<T>(xs: seq<T>)
    ensures Distinct(Dedupe(xs))
    ensures forall x :: x in Dedupe(xs) <==> x in xs
  {
    if xs != [] {
      var init := xs[..|xs| - 1];
      DedupeMeaning(init);
      assert xs == init + [xs[|xs| - 1]];
    }
  }

  /** The position of the first occurrence of x in xs. */
  function FirstIndex<T(==)>(xs: seq<T>, x: T): (k: nat)
    requires x in xs
    ensures k < |xs| && xs[k] == x && x !in xs[..k]
  {
    if xs[0] == x then 0
    else
      var k := 1 + FirstIndex(xs[1..], x);
      assert xs[..k] == [xs[0]] + xs[1..][..k - 1];
      k
  }

  /** An occurrence with no earlier one is the first occurrence. */
  lemma FirstIndexUnique<T>(xs: seq<T>, x: T, k: nat)
    requires k < |xs| && xs[k] == x && x !in xs[..k]
    ensures FirstIndex(xs, x) == k
  {
  }

  /** Appending an element does not move the first occurrence of a value already present. */
  lemma FirstIndexSnoc<T>(xs: seq<T>, y: T, x: T)
    requires x in xs
    ensures FirstIndex(xs + [y], x) == FirstIndex(xs, x)
  {
    var f := FirstIndex(xs, x);
    assert (xs + [y])[..f] == xs[..f];
    FirstIndexUnique(xs + [y], x, f);
  }

  /**
   * `Array.from(new Set(xs))` lists the values in the order of their first
   * occurrence in xs; with Distinct and the same members this fixes it.
   */
  lemma {:induction false} DedupeFirstOrder<T>(xs: seq<T>)
    ensures forall x :: x in Dedupe(xs) ==> x in xs
    ensures forall i, j :: 0 <= i < j < |Dedupe(xs)| ==> FirstIndex(xs, Dedupe(xs)[i]) < FirstIndex(xs, Dedupe(xs)[j])
    decreases |xs|
  {
    DedupeMeaning(xs);
    if xs != [] {
      var init, y := xs[..|xs| - 1], xs[|xs| - 1];
      var d := Dedupe(init);
      assert xs == init + [y];
      DedupeFirstOrder(init);
      DedupeMeaning(init);
      forall i, j | 0 <= i < j < |Dedupe(xs)|
        ensures FirstIndex(xs, Dedupe(xs)[i]) < FirstIndex(xs, Dedupe(xs)[j])
      {
        FirstIndexSnoc(init, y, d[i]);
        if j < |d| {
          FirstIndexSnoc(init, y, d[j]);
        } else {
          assert y !in init && Dedupe(xs)[j] == y;
          FirstIndexUnique(xs, y, |init|);
        }
      }
    }
  }

  /** Adding one more element to a `Set`: appended only when new. */
  lemma DedupeSnoc<T>(xs: seq<T>, x: T)
    ensures Dedupe(xs + [x]) == if x in Dedupe(xs) then Dedupe(xs) else Dedupe(xs) + [x]
  {
    assert (xs + [x])[..|xs|] == xs;
  }

  /** `xs.forEach(x => set.add(x))` on a `Set` whose insertion order is acc. */
  function AddAll<T(==)>(acc: seq<T>, xs: seq<T>): seq<T>
    decreases xs
  {
    if xs == [] then acc else AddAll(if xs[0] in acc then acc else acc + [xs[0]], xs[1..])
  }

  lemma AddAllCons<T>(acc: seq<T>, x: T, xs: seq<T>)
    ensures AddAll(acc, [x] + xs) == AddAll(if x in acc then acc else acc + [x], xs)
  {
    assert ([x] + xs)[1..] == xs;
  }

  /** Adding to the de-duplicated a is de-duplicating a + b. */
  lemma {:induction false} AddAllIsDedupe<T>(a: seq<T>, b: seq<T>)
    ensures AddAll(Dedupe(a), b) == Dedupe(a + b)
    decreases |b|
  {
    if b == [] {
      assert a + b == a;
    } else {
      var x := b[0];
      var d := Dedupe(a);
      assert b == [x] + b[1..];
      assert AddAll(d, b) == AddAll(if x in d then d else d + [x], b[1..]) by {
        AddAllCons(d, x, b[1..]);
      }
      assert (if x in d then d else d + [x]) == Dedupe(a + [x]) by {
        DedupeSnoc(a, x);
      }
      AddAllIsDedupe(a + [x], b[1..]);
      var rest := b[1..];
      assert a + b == a + ([x] + rest);
      assert a + ([x] + rest) == (a + [x]) + rest;
    }
  }

  /** Removing duplicates from a duplicate-free list leaves it as it is. */
  lemma {:induction false} DedupeOfDistinct<T>(xs: seq<T>)
    requires Distinct(xs)
    ensures Dedupe(xs) == xs
  {
    if xs != [] {
      var init := xs[..|xs| - 1];
      DedupeOfDistinct(init);
      assert xs[|xs| - 1] !in init;
      assert xs == init + [xs[|xs| - 1]];
    }
  }

  /** Dedupe keeps first occurrences: the result for a prefix is a prefix of the result. */
  lemma {:induction false} DedupePrefix<T>(xs: seq<T>, ys: seq<T>)
    ensures Dedupe(xs) <= Dedupe(xs + ys)
    decreases |ys|
  {
    if ys != [] {
      var zs := xs + ys[..|ys| - 1];
      DedupePrefix(xs, ys[..|ys| - 1]);
      assert (xs + ys)[..|xs + ys| - 1] == zs;
    } else {
      assert xs + ys == xs;
    }
  }

  // ---------- toggling a value in a selection ----------

  /** `xs.filter(s => s !== v)`. */
  function Remove<T(==)>(xs: seq<T>, v: T): (r: seq<T>)
    ensures v !in r
    ensures |r| <= |xs|
    ensures forall i :: 0 <= i < |r| ==> r[i] in xs && r[i] != v
    ensures forall i :: 0 <= i < |xs| && xs[i] != v ==> xs[i] in r
  {
    if xs == [] then []
    else (if xs[0] == v then [] else [xs[0]]) + Remove(xs[1..], v)
  }

  lemma {:induction false} RemoveAbsent<T>(xs: seq<T>, v: T)
    requires v !in xs
    ensures Remove(xs, v) == xs
  {
    if xs != [] {
      RemoveAbsent(xs[1..], v);
    }
  }

  lemma {:induction false} RemoveAppend<T>(xs: seq<T>, ys: seq<T>, v: T)
    ensures Remove(xs + ys, v) == Remove(xs, v) + Remove(ys, v)
  {
    if xs != [] {
      var z := xs + ys;
      var h := if xs[0] == v then [] else [xs[0]];
      assert z[0] == xs[0] && z[1..] == xs[1..] + ys;
      RemoveAppend(xs[1..], ys, v);
      assert Remove(z, v) == h + (Remove(xs[1..], v) + Remove(ys, v));
      assert Remove(xs, v) == h + Remove(xs[1..], v);
    } else {
      assert xs + ys == ys;
    }
  }

  lemma {:induction false} RemoveDistinct<T>(xs: seq<T>, v: T)
    requires Distinct(xs)
    ensures Distinct(Remove(xs, v))
  {
    if xs != [] {
      RemoveDistinct(xs[1..], v);
      assert xs[0] !in xs[1..];
    }
  }

  /** `prev.includes(v) ? prev.filter(s => s !== v) : [...prev, v]`. */
  function Toggled<T(==)>(xs: seq<T>, v: T): seq<T>
  {
    if v in xs then Remove(xs, v) else xs + [v]
  }

  /** After a toggle, v is present exactly when it was absent; nothing else changes membership. */
  lemma ToggledMembers<T>(xs: seq<T>, v: T, x: T)
    ensures x in Toggled(xs, v) <==> (if x == v then v !in xs else x in xs)
  {
  }

  /** Toggling an absent value twice gives back the original list exactly. */
  lemma ToggleTwice<T>(xs: seq<T>, v: T)
    requires v !in xs
    ensures Toggled(xs, v) == xs + [v]
    ensures Toggled(Toggled(xs, v), v) == xs
  {
    RemoveAppend(xs, [v], v);
    RemoveAbsent(xs, v);
  }

  /** Toggling keeps a duplicate-free list duplicate-free. */
  lemma ToggledDistinct<T>(xs: seq<T>, v: T)
    requires Distinct(xs)
    ensures Distinct(Toggled(xs, v))
  {
    if v in xs {
      RemoveDistinct(xs, v);
    }
  }

  // ---------- xs.filter(p) ----------

  /** `xs.filter(p)` for a predicate that reads nothing. */
  function Filter<T>(xs: seq<T>, p: T -> bool): (r: seq<T>)
    ensures |r| <= |xs|
  {
    if xs == [] then [] else (if p(xs[0]) then [xs[0]] else []) + Filter(xs[1..], p)
  }

  /** a is b with some elements dropped, the rest kept in order. */
  predicate IsSubsequence<T(==)>(a: seq<T>, b: seq<T>)
    decreases |b|
  {
    a == [] || (b != [] && ((a[0] == b[0] && IsSubsequence(a[1..], b[1..])) || IsSubsequence(a, b[1..])))
  }

  /** The filter keeps exactly the elements that pass, in their order. */
  lemma {:induction false} FilterMeaning<T>(xs: seq<T>, p: T -> bool)
    ensures forall x :: x in Filter(xs, p) <==> x in xs && p(x)
    ensures IsSubsequence(Filter(xs, p), xs)
  {
    if xs != [] {
      FilterMeaning(xs[1..], p);
      assert xs == [xs[0]] + xs[1..];
      var rest := Filter(xs[1..], p);
      if p(xs[0]) {
        assert Filter(xs, p) == [xs[0]] + rest;
        assert ([xs[0]] + rest)[1..] == rest;
      } else {
        assert Filter(xs, p) == [] + rest == rest;
      }
    }
  }

  /** When every element passes, the filter returns its input. */
  lemma {:induction false} FilterAll<T>(xs: seq<T>, p: T -> bool)
    requires forall i :: 0 <= i < |xs| ==> p(xs[i])
    ensures Filter(xs, p) == xs
  {
    if xs != [] {
      FilterAll(xs[1..], p);
      assert xs == [xs[0]] + xs[1..];
    }
  }

  /** Two filters applied one after the other commute. */
  lemma {:induction false} FilterCommute<T>(xs: seq<T>, p: T -> bool, q: T -> bool)
    ensures Filter(Filter(xs, p), q) == Filter(Filter(xs, q), p)
  {
    FilterBoth(xs, p, q);
    FilterBoth(xs, q, p);
    FilterSame(xs, x => p(x) && q(x), x => q(x) && p(x));
  }

  lemma {:induction false} FilterSame<T>(xs: seq<T>, p: T -> bool, q: T -> bool)
    requires forall x :: p(x) == q(x)
    ensures Filter(xs, p) == Filter(xs, q)
  {
    if xs != [] {
      FilterSame(xs[1..], p, q);
    }
  }

  lemma {:induction false} FilterAppend<T>(a: seq<T>, b: seq<T>, p: T -> bool)
    ensures Filter(a + b, p) == Filter(a, p) + Filter(b, p)
  {
    if a == [] {
      assert a + b == b;
    } else {
      var t := a[1..];
      FilterAppend(t, b, p);
      var head := if p(a[0]) then [a[0]] else [];
      assert a == [a[0]] + t;
      assert a + b == [a[0]] + (t + b);
      FilterCons(a[0], t + b, p);
      FilterCons(a[0], t, p);
      SeqAssoc(head, Filter(t, p), Filter(b, p));
    }
  }

  lemma FilterCons<T>(x: T, xs: seq<T>, p: T -> bool)
    ensures Filter([x] + xs, p) == (if p(x) then [x] else []) + Filter(xs, p)
  {
    assert ([x] + xs)[1..] == xs;
  }

  lemma SeqAssoc<T>(a: seq<T>, b: seq<T>, c: seq<T>)
    ensures a + (b + c) == (a + b) + c
  {
  }

  /** Filtering by two predicates in turn is filtering by their conjunction. */
  lemma {:induction false} FilterBoth<T>(xs: seq<T>, p: T -> bool, q: T -> bool)
    ensures Filter(Filter(xs, p), q) == Filter(xs, x => p(x) && q(x))
  {
    if xs != [] {
      FilterBoth(xs[1..], p, q);
      var head := if p(xs[0]) then [xs[0]] else [];
      FilterAppend(head, Filter(xs[1..], p), q);
    }
  }

  /** TrimsTo is "some item trims to x". */
  lemma {:induction false} TrimsToAt(names: seq<string>, x: string)
    ensures TrimsTo(names, x) <==> exists i :: 0 <= i < |names| && Trim(names[i]) == x
    decreases |names|
  {
    if names != [] {
      TrimsToCons(names, x);
      TrimsToAt(names[1..], x);
      if exists i :: 0 <= i < |names[1..]| && Trim(names[1..][i]) == x {
        var i :| 0 <= i < |names[1..]| && Trim(names[1..][i]) == x;
        assert Trim(names[i + 1]) == x;
      }
      if exists i :: 0 <= i < |names| && Trim(names[i]) == x {
        var i :| 0 <= i < |names| && Trim(names[i]) == x;
        if i > 0 {
          assert Trim(names[1..][i - 1]) == x;
        }
      }
    }
  }

  /** Extending b at the end keeps a a subsequence, and extending both keeps it one too. */
  lemma {:induction false} SubsequenceSnoc<T>(a: seq<T>, b: seq<T>, x: T)
    requires IsSubsequence(a, b)
    ensures IsSubsequence(a, b + [x]) && IsSubsequence(a + [x], b + [x])
    decreases |b|
  {
    if b == [] {
      assert a == [];
      assert [x][1..] == [];
      assert a + [x] == [x];
    } else {
      assert (b + [x])[1..] == b[1..] + [x];
      if a == [] {
        SubsequenceSnoc(a, b[1..], x);
        assert a + [x] == [x];
      } else if a[0] == b[0] && IsSubsequence(a[1..], b[1..]) {
        SubsequenceSnoc(a[1..], b[1..], x);
        assert (a + [x])[1..] == a[1..] + [x];
      } else {
        SubsequenceSnoc(a, b[1..], x);
      }
    }
  }

  /** `Array.from(new Set(xs))` keeps the order of first occurrences. */
  lemma {:induction false} DedupeSubsequence<T>(xs: seq<T>)
    ensures IsSubsequence(Dedupe(xs), xs)
    decreases |xs|
  {
    if xs != [] {
      var init := xs[..|xs| - 1];
      DedupeSubsequence(init);
      SubsequenceSnoc(Dedupe(init), init, xs[|xs| - 1]);
      assert xs == init + [xs[|xs| - 1]];
    }
  }

  /** A subsequence of a subsequence is a subsequence. */
  lemma {:induction false} SubsequenceTrans<T>(a: seq<T>, b: seq<T>, c: seq<T>)
    requires IsSubsequence(a, b) && IsSubsequence(b, c)
    ensures IsSubsequence(a, c)
    decreases |c|
  {
    if a != [] {
      assert b != [];
      assert c != [];
      if b[0] == c[0] && IsSubsequence(b[1..], c[1..]) {
        if a[0] == b[0] && IsSubsequence(a[1..], b[1..]) {
          SubsequenceTrans(a[1..], b[1..], c[1..]);
        } else {
          SubsequenceTrans(a, b[1..], c[1..]);
        }
      } else {
        SubsequenceTrans(a, b, c[1..]);
      }
    }
  }
}
