/**
 * components/ui/Pagination.tsx: the page links under a paged list. The
 * component builds a window of page numbers around the current page,
 * marking the pages left out with ellipses, then drops an ellipsis that
 * directly follows another; every link keeps the list's other query
 * parameters and sets or removes `page`.
 */
module Pagination {
  import opened Wrappers
  import opened Text
  import opened LeetCodeService

  /** One entry of the window: a page number or an ellipsis. */
  datatype Entry = PageNo(n: int) | Ellipsis

  /** What the component renders when it renders anything. */
  datatype Nav = Nav(prev: Option<int>, next: Option<int>, entries: seq<Entry>)

  function Max(a: int, b: int): int { if a >= b then a else b }
  function Min(a: int, b: int): int { if a <= b then a else b }

  // ---------- the window ----------

  /** The pages a..b, in increasing order. */
  function Run(a: int, b: int): (r: seq<Entry>)
    ensures |r| == if a > b then 0 else b - a + 1
    ensures forall i :: 0 <= i < |r| ==> r[i] == PageNo(a + i)
    decreases b - a
  {
    if a > b then [] else Run(a, b - 1) + [PageNo(b)]
  }

  /** A page is in a run exactly when it lies between the run's ends, and no ellipsis is. */
  lemma RunMember(a: int, b: int, k: int)
    ensures PageNo(k) in Run(a, b) <==> a <= k <= b
    ensures Ellipsis !in Run(a, b)
  {
    if a <= k <= b {
      assert Run(a, b)[k - a] == PageNo(k);
    }
  }

  /** `add(p)`: p is pushed when it is a page of the list and not shown yet. */
  function Added(show: seq<Entry>, p: int, total: int): seq<Entry> {
    if 1 <= p <= total && PageNo(p) !in show then show + [PageNo(p)] else show
  }

  /** Page 1, then an ellipsis when the current page is past 3. */
  function Head(page: int): seq<Entry> {
    [PageNo(1)] + (if page > 3 then [Ellipsis] else [])
  }

  /** The pages around the current one, from the first past page 1 to the last in the list. */
  function Mid(page: int, total: int): seq<Entry> {
    Run(Max(2, page - 1), Min(total, page + 1))
  }

  /** An ellipsis when the current page is before total - 2. */
  function Gap(page: int, total: int): seq<Entry> {
    if page < total - 2 then [Ellipsis] else []
  }

  /** The last page, unless the pages around the current one already end with it. */
  function Tail(page: int, total: int): seq<Entry> {
    if Max(2, page - 1) <= total <= Min(total, page + 1) then [] else [PageNo(total)]
  }

  /** The window in closed form. */
  function Window(page: int, total: int): seq<Entry>
    requires total > 1
  {
    Head(page) + Mid(page, total) + Gap(page, total) + Tail(page, total)
  }

  /** The head of the window: page 1 and at most ellipses. */
  predicate IsHead(head: seq<Entry>) {
    |head| >= 1 && head[0] == PageNo(1) && forall k :: 1 <= k < |head| ==> head[k] == Ellipsis
  }

  /** One `add(i)` of the loop extends the run, or skips page 1, which is already shown. */
  lemma AddedStep(head: seq<Entry>, a: int, i: int, total: int)
    requires IsHead(head) && a >= 2 && 1 <= i <= total && (i >= 2 ==> a <= i)
    ensures Added(head + Run(a, i - 1), i, total) == head + Run(a, i)
  {
    var show := head + Run(a, i - 1);
    if i == 1 {
      assert show[0] == PageNo(1);
    } else {
      RunMember(a, i - 1, i);
      assert Run(a, i) == Run(a, i - 1) + [PageNo(i)];
    }
  }

  /** The final `add(total)` appends the last page unless the run ends with it. */
  lemma AddedLast(head: seq<Entry>, a: int, b: int, e: seq<Entry>, total: int)
    requires IsHead(head) && a >= 2 && total >= 2 && (e == [] || e == [Ellipsis])
    ensures Added(head + Run(a, b) + e, total, total)
         == head + Run(a, b) + e + (if a <= total <= b then [] else [PageNo(total)])
  {
    RunMember(a, b, total);
  }

  /** The `showPages` construction of the component. */
  method ShowPages(page: int, total: int) returns (show: seq<Entry>)
    requires total > 1
    ensures show == Window(page, total)
  {
    show := [];
    show := Added(show, 1, total);
    if page > 3 {
      show := show + [Ellipsis];
    }
    ghost var head := show;
    ghost var a := Max(2, page - 1);
    assert IsHead(head);
    var i := Max(1, page - 1);
    var hi := Min(total, page + 1);
    assert show == head + Run(a, i - 1);
    while i <= hi
      invariant Max(1, page - 1) <= i <= Max(hi + 1, Max(1, page - 1))
      invariant show == head + Run(a, i - 1)
    {
      AddedStep(head, a, i, total);
      show := Added(show, i, total);
      i := i + 1;
    }
    assert Run(a, i - 1) == Run(a, hi) by {
      if i - 1 != hi {
        assert i == Max(1, page - 1);
      }
    }
    ghost var e: seq<Entry> := [];
    if page < total - 2 {
      show := show + [Ellipsis];
      e := [Ellipsis];
    }
    assert show == head + Run(a, hi) + e;
    AddedLast(head, a, hi, e, total);
    show := Added(show, total, total);
    assert head == Head(page) && Run(a, hi) == Mid(page, total) && e == Gap(page, total);
  }

  // ---------- the ellipsis-collapsing pass ----------

  /** The `dedup` list: every entry of `show` except an ellipsis right after a kept ellipsis. */
  function Collapsed(show: seq<Entry>): (d: seq<Entry>)
    ensures |d| <= |show|
  {
    if show == [] then []
    else
      var c := Collapsed(show[..|show| - 1]);
      if show[|show| - 1].Ellipsis? && c != [] && c[|c| - 1].Ellipsis? then c else c + [show[|show| - 1]]
  }

  /** The `dedup` loop, keeping the last pushed entry in `last`. */
  method Dedup(show: seq<Entry>) returns (dedup: seq<Entry>)
    ensures dedup == Collapsed(show)
  {
    dedup := [];
    var last: Option<Entry> := None;
    var k := 0;
    while k < |show|
      invariant 0 <= k <= |show|
      invariant dedup == Collapsed(show[..k])
      invariant last == if dedup == [] then None else Some(dedup[|dedup| - 1])
    {
      var p := show[k];
      assert show[..k + 1][..k] == show[..k];
      if p.Ellipsis? && last == Some(Ellipsis) {
        k := k + 1;
        continue;
      }
      dedup := dedup + [p];
      last := Some(p);
      k := k + 1;
    }
    assert show[..k] == show;
  }

  /** No ellipsis directly follows another. */
  predicate NoAdjacentEllipses(d: seq<Entry>) {
    forall i :: 0 <= i < |d| - 1 ==> d[i].PageNo? || d[i + 1].PageNo?
  }

  /** The page entries, in order. */
  function Pages(d: seq<Entry>): (r: seq<int>)
    ensures |r| <= |d|
  {
    if d == [] then [] else Pages(d[..|d| - 1]) + (if d[|d| - 1].PageNo? then [d[|d| - 1].n] else [])
  }

  /** The pass never leaves two adjacent ellipses and drops no page. */
  lemma {:induction false} CollapsedMeaning(show: seq<Entry>)
    ensures NoAdjacentEllipses(Collapsed(show))
    ensures Pages(Collapsed(show)) == Pages(show)
    ensures show != [] ==> Collapsed(show) != [] && Collapsed(show)[0] == show[0]
    ensures show != [] ==> Collapsed(show)[|Collapsed(show)| - 1] == show[|show| - 1] || show[|show| - 1].Ellipsis?
  {
    if show != [] {
      var init := show[..|show| - 1];
      var x := show[|show| - 1];
      CollapsedMeaning(init);
      var c := Collapsed(init);
      if !(x.Ellipsis? && c != [] && c[|c| - 1].Ellipsis?) {
        assert (c + [x])[..|c + [x]| - 1] == c;
        assert init != [] ==> show[0] == init[0];
      } else {
        assert show[0] == init[0];
        assert Pages(show) == Pages(init) + [];
      }
    }
  }

  /** A list without adjacent ellipses passes unchanged. */
  lemma {:induction false} CollapsedIdentity(show: seq<Entry>)
    requires NoAdjacentEllipses(show)
    ensures Collapsed(show) == show
  {
    if show != [] {
      var init := show[..|show| - 1];
      assert NoAdjacentEllipses(init) by {
        forall i | 0 <= i < |init| - 1
          ensures init[i].PageNo? || init[i + 1].PageNo?
        {
          assert init[i] == show[i] && init[i + 1] == show[i + 1];
        }
      }
      CollapsedIdentity(init);
      if |show| >= 2 {
        assert init[|init| - 1] == show[|show| - 2];
      }
      assert init + [show[|show| - 1]] == show;
    }
  }

  // ---------- properties of the window ----------

  /** Every page entry is a page of the list. */
  predicate PagesIn(d: seq<Entry>, lo: int, hi: int) {
    forall i :: 0 <= i < |d| && d[i].PageNo? ==> lo <= d[i].n <= hi
  }

  /** The page entries strictly increase. */
  predicate Increasing(d: seq<Entry>) {
    forall i, j :: 0 <= i < j < |d| && d[i].PageNo? && d[j].PageNo? ==> d[i].n < d[j].n
  }

  /** Every ellipsis sits between two pages with at least one page missing between them. */
  predicate EllipsesHidePages(d: seq<Entry>) {
    forall i :: 0 <= i < |d| && d[i].Ellipsis? ==>
      0 < i < |d| - 1 && d[i - 1].PageNo? && d[i + 1].PageNo? && d[i - 1].n + 1 < d[i + 1].n
  }

  lemma IncreasingAppend(x: seq<Entry>, y: seq<Entry>, lo: int, m: int, hi: int)
    requires lo <= m <= hi + 1
    requires Increasing(x) && Increasing(y) && PagesIn(x, lo, m - 1) && PagesIn(y, m, hi)
    ensures Increasing(x + y) && PagesIn(x + y, lo, hi)
  {
    forall i, j | 0 <= i < j < |x + y| && (x + y)[i].PageNo? && (x + y)[j].PageNo?
      ensures (x + y)[i].n < (x + y)[j].n
    {
      if j < |x| {
        assert (x + y)[i] == x[i] && (x + y)[j] == x[j];
      } else if i < |x| {
        assert (x + y)[i] == x[i] && (x + y)[j] == y[j - |x|];
      } else {
        assert (x + y)[i] == y[i - |x|] && (x + y)[j] == y[j - |x|];
      }
    }
    forall i | 0 <= i < |x + y| && (x + y)[i].PageNo?
      ensures lo <= (x + y)[i].n <= hi
    {
      if i < |x| {
        assert (x + y)[i] == x[i];
      } else {
        assert (x + y)[i] == y[i - |x|];
      }
    }
  }

  /** An entry of a list made of four parts. */
  lemma At4(h: seq<Entry>, r: seq<Entry>, e: seq<Entry>, l: seq<Entry>, i: int)
    requires 0 <= i < |h| + |r| + |e| + |l|
    ensures (h + r + e + l)[i] ==
      if i < |h| then h[i]
      else if i < |h| + |r| then r[i - |h|]
      else if i < |h| + |r| + |e| then e[i - |h| - |r|]
      else l[i - |h| - |r| - |e|]
  {
  }

  /** The window's page entries are distinct pages of the list, in increasing order. */
  lemma WindowIncreasing(page: int, total: int)
    requires total > 1
    ensures PagesIn(Window(page, total), 1, total) && Increasing(Window(page, total))
  {
    var a := Max(2, page - 1);
    var b := Min(total, page + 1);
    var h := Head(page);
    var r := Mid(page, total);
    var e := Gap(page, total);
    var l := Tail(page, total);
    assert Window(page, total) == (h + r) + (e + l);
    assert PagesIn(h, 1, 1) && Increasing(h);
    var top := if r == [] then 1 else b;
    if r != [] {
      IncreasingAppend(h, r, 1, a, b);
    } else {
      assert h + r == h;
    }
    assert l != [] ==> top < total;
    assert PagesIn(e + l, top + 1, total) && Increasing(e + l);
    IncreasingAppend(h + r, e + l, 1, top + 1, total);
  }

  /** The window runs from page 1 to the last page and has at most 7 entries. */
  lemma WindowEnds(page: int, total: int)
    requires total > 1
    ensures var d := Window(page, total);
            2 <= |d| <= 7 && d[0] == PageNo(1) && d[|d| - 1] == PageNo(total)
  {
    var a := Max(2, page - 1);
    var b := Min(total, page + 1);
    var h := Head(page);
    var r := Mid(page, total);
    var e := Gap(page, total);
    var l := Tail(page, total);
    var d := Window(page, total);
    assert d == h + r + e + l;
    At4(h, r, e, l, |d| - 1);
    if l == [] {
      assert b == total && r != [] && e == [];
      assert r[|r| - 1] == PageNo(a + (b - a));
    }
  }

  /** Where the window's ellipses are: after page 1, and after the run around the current page. */
  lemma WindowEllipsis(page: int, total: int, i: int)
    requires total > 1 && 0 <= i < |Window(page, total)| && Window(page, total)[i].Ellipsis?
    ensures (page > 3 && i == 1) || (page < total - 2 && i == |Head(page)| + |Mid(page, total)|)
  {
    var a := Max(2, page - 1);
    var b := Min(total, page + 1);
    var h := Head(page);
    var r := Mid(page, total);
    var e := Gap(page, total);
    var l := Tail(page, total);
    assert Window(page, total) == h + r + e + l;
    At4(h, r, e, l, i);
  }

  /** No ellipsis of the window directly follows another. */
  lemma WindowNoAdjacentEllipses(page: int, total: int)
    requires total > 1
    ensures NoAdjacentEllipses(Window(page, total))
  {
    var d := Window(page, total);
    forall i | 0 <= i < |d| - 1
      ensures d[i].PageNo? || d[i + 1].PageNo?
    {
      if d[i].Ellipsis? && d[i + 1].Ellipsis? {
        WindowEllipsis(page, total, i);
        WindowEllipsis(page, total, i + 1);
      }
    }
  }

  /**
   * The window's page entries are distinct pages of the list in increasing
   * order, from page 1 to the last page, and it has at most 7 entries, none
   * of them an ellipsis right after another.
   */
  lemma WindowShape(page: int, total: int)
    requires total > 1
    ensures var d := Window(page, total);
            PagesIn(d, 1, total) && Increasing(d)
            && |d| >= 2 && d[0] == PageNo(1) && d[|d| - 1] == PageNo(total)
            && |d| <= 7 && NoAdjacentEllipses(d)
  {
    WindowIncreasing(page, total);
    WindowEnds(page, total);
    WindowNoAdjacentEllipses(page, total);
  }

  /** When the current page is a page of the list, the window shows it and its neighbours that exist. */
  lemma WindowShowsPage(page: int, total: int)
    requires 1 <= page <= total && total > 1
    ensures var d := Window(page, total);
            PageNo(page) in d
            && (page > 1 ==> PageNo(page - 1) in d)
            && (page < total ==> PageNo(page + 1) in d)
  {
    var a := Max(2, page - 1);
    var b := Min(total, page + 1);
    var d := Window(page, total);
    assert d == Head(page) + Mid(page, total) + Gap(page, total) + Tail(page, total);
    RunMember(a, b, page);
    RunMember(a, b, page - 1);
    RunMember(a, b, page + 1);
    assert Head(page)[0] == PageNo(1);
  }

  /** When the current page is a page of the list, an ellipsis of the window stands for at least one page. */
  lemma WindowGap(page: int, total: int, i: int)
    requires 1 <= page <= total && total > 1
    requires 0 <= i < |Window(page, total)| && Window(page, total)[i].Ellipsis?
    ensures var d := Window(page, total);
            0 < i < |d| - 1 && d[i - 1].PageNo? && d[i + 1].PageNo? && d[i - 1].n + 1 < d[i + 1].n
  {
    var a := Max(2, page - 1);
    var b := Min(total, page + 1);
    var h := Head(page);
    var r := Mid(page, total);
    var e := Gap(page, total);
    var l := Tail(page, total);
    var d := Window(page, total);
    assert d == h + r + e + l;
    assert r != [];
    WindowEllipsis(page, total, i);
    if i == 1 && page > 3 {
      At4(h, r, e, l, 0);
      At4(h, r, e, l, 2);
      assert r[0] == PageNo(a);
    } else {
      At4(h, r, e, l, i - 1);
      At4(h, r, e, l, i + 1);
      assert r[|r| - 1] == PageNo(a + (b - a));
    }
  }

  /**
   * When the current page is a page of the list, the window shows it and
   * its neighbours that exist, and every ellipsis stands for at least one
   * page left out.
   */
  lemma WindowAroundPage(page: int, total: int)
    requires 1 <= page <= total && total > 1
    ensures var d := Window(page, total);
            PageNo(page) in d
            && (page > 1 ==> PageNo(page - 1) in d)
            && (page < total ==> PageNo(page + 1) in d)
            && EllipsesHidePages(d)
  {
    WindowShowsPage(page, total);
    var d := Window(page, total);
    forall i | 0 <= i < |d| && d[i].Ellipsis?
      ensures 0 < i < |d| - 1 && d[i - 1].PageNo? && d[i + 1].PageNo? && d[i - 1].n + 1 < d[i + 1].n
    {
      WindowGap(page, total, i);
    }
  }

  /** Collapsing leaves the window as it is. */
  lemma DedupKeepsWindow(page: int, total: int)
    requires total > 1
    ensures Collapsed(Window(page, total)) == Window(page, total)
  {
    WindowShape(page, total);
    CollapsedIdentity(Window(page, total));
  }

  // ---------- the component ----------

  /**
   * The component: nothing for a list of at most one page; otherwise the
   * previous and next page when they exist and the collapsed window.
   */
  method Render(page: int, total: int) returns (nav: Option<Nav>)
    ensures nav.None? <==> total <= 1
    ensures nav.Some? ==> (nav.value.prev.Some? <==> page > 1) && (nav.value.prev.Some? ==> nav.value.prev.value == page - 1)
    ensures nav.Some? ==> (nav.value.next.Some? <==> page < total) && (nav.value.next.Some? ==> nav.value.next.value == page + 1)
    ensures nav.Some? ==> var d := nav.value.entries;
              PagesIn(d, 1, total) && Increasing(d)
              && |d| >= 2 && d[0] == PageNo(1) && d[|d| - 1] == PageNo(total)
              && |d| <= 7 && NoAdjacentEllipses(d)
    ensures nav.Some? && 1 <= page <= total ==> var d := nav.value.entries;
              PageNo(page) in d
              && (page > 1 ==> PageNo(page - 1) in d)
              && (page < total ==> PageNo(page + 1) in d)
              && EllipsesHidePages(d)
  {
    if total <= 1 {
      return None;
    }
    var prev := if page > 1 then Some(page - 1) else None;
    var next := if page < total then Some(page + 1) else None;
    var show := ShowPages(page, total);
    var dedup := Dedup(show);
    WindowShape(page, total);
    DedupKeepsWindow(page, total);
    if 1 <= page <= total {
      WindowAroundPage(page, total);
    }
    nav := Some(Nav(prev, next, dedup));
  }

  // ---------- links ----------

  /** `params.delete(name)`: every pair named `name` is removed, the rest kept in order. */
  function Without(ps: seq<(string, string)>, name: string): (r: seq<(string, string)>)
    ensures forall i :: 0 <= i < |r| ==> r[i].0 != name
    ensures forall p :: p in r <==> p in ps && p.0 != name
    ensures Param(r, name) == None
  {
    if ps == [] then []
    else if ps[0].0 == name then Without(ps[1..], name)
    else [ps[0]] + Without(ps[1..], name)
  }

  /**
   * `params.set(name, value)`: the first pair named `name` takes the value
   * and later ones go; with none, the pair is appended.
   */
  function SetPairs(ps: seq<(string, string)>, name: string, value: string): (r: seq<(string, string)>)
    ensures Param(r, name) == Some(value)
    ensures Without(r, name) == Without(ps, name)
    ensures |r| == |Without(ps, name)| + 1
  {
    if ps == [] then [(name, value)]
    else if ps[0].0 == name then
      var rest := Without(ps[1..], name);
      WithoutClean(rest, name);
      assert ([(name, value)] + rest)[1..] == rest;
      [(name, value)] + rest
    else [ps[0]] + SetPairs(ps[1..], name, value)
  }

  /** The query of a page link. */
  function PagedQuery(query: seq<(string, string)>, pageNum: int): (ps: seq<(string, string)>)
    ensures pageNum <= 1 ==> Param(ps, "page") == None
    ensures pageNum > 1 ==> Param(ps, "page") == Some(NatToString(pageNum))
    ensures Without(ps, "page") == Without(query, "page")
  {
    WithoutClean(Without(query, "page"), "page");
    if pageNum > 1 then SetPairs(query, "page", NatToString(pageNum)) else Without(query, "page")
  }

  /** Deleting a name no pair has changes nothing; in particular, deleting twice is deleting once. */
  lemma {:induction false} WithoutClean(ps: seq<(string, string)>, name: string)
    requires forall i :: 0 <= i < |ps| ==> ps[i].0 != name
    ensures Without(ps, name) == ps
  {
    if ps != [] {
      assert ps[0].0 != name;
      assert forall i :: 0 <= i < |ps[1..]| ==> ps[1..][i] == ps[i + 1];
      WithoutClean(ps[1..], name);
      assert [ps[0]] + ps[1..] == ps;
    }
  }

  /** A serialised query is never empty: each pair has its `=`. */
  lemma JoinPairsNonEmpty(ps: seq<(string, string)>)
    requires ps != []
    ensures JoinPairs(ps) != ""
  {
    assert |ps[0].0 + "=" + ps[0].1| > 0;
  }

  /**
   * `buildHref`: the base path, followed by `?` and the query when the
   * query is not empty; `page` is set for pages past the first and removed
   * otherwise.
   */
  method BuildHref(basePath: string, queryParams: seq<(string, string)>, pageNum: int) returns (href: string)
    ensures var ps := PagedQuery(queryParams, pageNum);
            href == if ps == [] then basePath else basePath + "?" + JoinPairs(ps)
  {
    var params := queryParams;
    if pageNum > 1 {
      params := SetPairs(params, "page", NatToString(pageNum));
    } else {
      params := Without(params, "page");
    }
    var s := if params == [] then "" else JoinPairs(params);
    if params != [] {
      JoinPairsNonEmpty(params);
    }
    href := basePath + (if s != "" then "?" + s else "");
  }

  /**
   * Two links of the same list differ only in `page`: their queries agree
   * on every other pair, and links to different pages past the first differ.
   */
  lemma LinksDifferOnlyInPage(query: seq<(string, string)>, p: int, q: int)
    ensures Without(PagedQuery(query, p), "page") == Without(PagedQuery(query, q), "page")
    ensures 1 < p && 1 < q && p != q ==> PagedQuery(query, p) != PagedQuery(query, q)
  {
    if 1 < p && 1 < q && p != q {
      assert Param(PagedQuery(query, p), "page") != Param(PagedQuery(query, q), "page") by {
        if NatToString(p) == NatToString(q) {
          NatToStringInjective(p, q);
        }
      }
    }
  }
}
