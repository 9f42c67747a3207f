/**
 * The pager under the incident list: the page buttons it shows, with
 * ellipses standing for hidden runs, and its Prev/Next targets.
 */
module Pagination {
  import opened Common

  /** One entry of the pager: a page button or an ellipsis. */
  datatype PageItem = Page(n: int) | Ellipsis

  function Max(a: int, b: int): int { if a >= b then a else b }
  function Min(a: int, b: int): int { if a <= b then a else b }

  /** The buttons `lo..hi`, none when `hi < lo`. */
  function Run(lo: int, hi: int): (r: seq<PageItem>)
    ensures |r| == Max(hi - lo + 1, 0)
    ensures forall k :: 0 <= k < |r| ==> r[k] == Page(lo + k)
    decreases hi - lo
  {
    if hi < lo then [] else Run(lo, hi - 1) + [Page(hi)]
  }

  /**
   * The pager for page `c` of `t`: every page when there are at most seven,
   * otherwise the first, the window around `c`, the last, and an ellipsis
   * on each side where pages are skipped.
   */
  function PageNumbers(c: int, t: int): seq<PageItem>
  {
    if t <= 7 then Run(1, t)
    else
      [Page(1)] + (if c > 3 then [Ellipsis] else []) + Run(Max(2, c - 1), Min(t - 1, c + 1)) +
      (if c < t - 2 then [Ellipsis] else []) + [Page(t)]
  }

  /** `getPageNumbers`, pushing entry after entry. */
  method GetPageNumbers(currentPage: int, totalPages: int) returns (pages: seq<PageItem>)
    ensures pages == PageNumbers(currentPage, totalPages)
  {
    if totalPages <= 7 {
      pages := [];
      var i := 0;
      while i < totalPages
        invariant 0 <= i <= Max(totalPages, 0)
        invariant pages == Run(1, i)
      {
        pages := pages + [Page(i + 1)];
        i := i + 1;
      }
      return;
    }
    pages := [Page(1)];
    if currentPage > 3 {
      pages := pages + [Ellipsis];
    }
    var head := pages;
    var lo := Max(2, currentPage - 1);
    var hi := Min(totalPages - 1, currentPage + 1);
    var i := lo;
    while i <= hi
      invariant lo <= i <= Max(hi + 1, lo)
      invariant pages == head + Run(lo, i - 1)
    {
      pages := pages + [Page(i)];
      i := i + 1;
    }
    if currentPage < totalPages - 2 {
      pages := pages + [Ellipsis];
    }
    pages := pages + [Page(totalPages)];
  }

  /** The page numbers shown, in order. */
  function Numbers(s: seq<PageItem>): (r: seq<int>)
    ensures |r| <= |s|
  {
    if s == [] then [] else (if s[0].Page? then [s[0].n] else []) + Numbers(s[1..])
  }

  lemma {:induction false} NumbersAppend(a: seq<PageItem>, b: seq<PageItem>)
    ensures Numbers(a + b) == Numbers(a) + Numbers(b)
  {
    if a == [] {
      assert a + b == b;
    } else {
      var head := if a[0].Page? then [a[0].n] else [];
      assert (a + b)[0] == a[0];
      assert (a + b)[1..] == a[1..] + b;
      assert Numbers(a + b) == head + Numbers(a[1..] + b);
      NumbersAppend(a[1..], b);
      assert Numbers(a) == head + Numbers(a[1..]);
    }
  }

  lemma {:induction false} NumbersOfRun(lo: int, hi: int)
    ensures Numbers(Run(lo, hi)) == seq(Max(hi - lo + 1, 0), k => lo + k)
    decreases hi - lo
  {
    if hi >= lo {
      NumbersOfRun(lo, hi - 1);
      NumbersAppend(Run(lo, hi - 1), [Page(hi)]);
    }
  }

  predicate StrictlyIncreasing(s: seq<int>)
  {
    forall i, j :: 0 <= i < j < |s| ==> s[i] < s[j]
  }

  /** Up to seven pages, the pager is every page in order. */
  lemma FewPagesAllShown(c: int, t: int)
    requires t <= 7
    ensures Numbers(PageNumbers(c, t)) == seq(Max(t, 0), k => k + 1)
    ensures Ellipsis !in PageNumbers(c, t)
  {
    NumbersOfRun(1, t);
  }

  /**
   * Beyond seven pages: the first and the last page are always shown, and
   * between them, apart from ellipses, exactly the window `max(2, c - 1) ..
   * min(t - 1, c + 1)`.
   */
  lemma ManyPagesShape(c: int, t: int)
    requires t > 7
    ensures var p := PageNumbers(c, t);
      |p| >= 2 && p[0] == Page(1) && p[|p| - 1] == Page(t) &&
      Numbers(p) == [1] + seq(Max(Min(t - 1, c + 1) - Max(2, c - 1) + 1, 0), k => Max(2, c - 1) + k) + [t]
  {
    var lo, hi := Max(2, c - 1), Min(t - 1, c + 1);
    var left: seq<PageItem> := if c > 3 then [Ellipsis] else [];
    var right: seq<PageItem> := if c < t - 2 then [Ellipsis] else [];
    var p := PageNumbers(c, t);
    var w := seq(Max(hi - lo + 1, 0), k => lo + k);
    var a1 := [Page(1)] + left;
    NumbersAppend([Page(1)], left);
    assert Numbers([Page(1)]) == [1] && Numbers(left) == [];
    var a2 := a1 + Run(lo, hi);
    NumbersAppend(a1, Run(lo, hi));
    NumbersOfRun(lo, hi);
    assert Numbers(a2) == [1] + w;
    var a3 := a2 + right;
    NumbersAppend(a2, right);
    assert Numbers(right) == [];
    assert Numbers(a3) == [1] + w;
    NumbersAppend(a3, [Page(t)]);
    assert Numbers([Page(t)]) == [t];
    assert p == a3 + [Page(t)];
  }

  /** For a real page `c`, the entry after the first page is an ellipsis
      exactly when `c > 3`, and the entry before the last exactly when
      `c < t - 2`. */
  lemma EllipsisPlacement(c: int, t: int)
    requires t > 7 && 1 <= c <= t
    ensures var p := PageNumbers(c, t);
      |p| >= 3 && (p[1] == Ellipsis <==> c > 3) && (p[|p| - 2] == Ellipsis <==> c < t - 2)
  {
    var lo, hi := Max(2, c - 1), Min(t - 1, c + 1);
    var left: seq<PageItem> := if c > 3 then [Ellipsis] else [];
    var right: seq<PageItem> := if c < t - 2 then [Ellipsis] else [];
    var run := Run(lo, hi);
    var p := PageNumbers(c, t);
    assert p == [Page(1)] + left + run + right + [Page(t)];
    assert |run| >= 1;
    assert p[1] == if c > 3 then Ellipsis else run[0];
    assert p[|p| - 2] == if c < t - 2 then Ellipsis else run[|run| - 1];
  }

  /** Whatever `c` is, the pages shown rise strictly, lie in `1..t`, and the
      pager never has more than seven entries. */
  lemma PagerIsBounded(c: int, t: int)
    ensures var p := PageNumbers(c, t);
      |p| <= 7 && StrictlyIncreasing(Numbers(p)) &&
      forall k :: 0 <= k < |Numbers(p)| ==> 1 <= Numbers(p)[k] <= t
  {
    if t <= 7 {
      FewPagesAllShown(c, t);
    } else {
      ManyPagesShape(c, t);
      var lo, hi := Max(2, c - 1), Min(t - 1, c + 1);
      FramedWindow(lo, hi, t);
      assert |Run(lo, hi)| <= 3;
    }
  }

  /** The first page, a window strictly inside `2..t-1`, and the last page rise strictly within `1..t`. */
  lemma FramedWindow(lo: int, hi: int, t: int)
    requires 2 <= lo && hi <= t - 1 && t >= 2
    ensures var n := [1] + seq(Max(hi - lo + 1, 0), k => lo + k) + [t];
      StrictlyIncreasing(n) && forall k :: 0 <= k < |n| ==> 1 <= n[k] <= t
  {
    var n := [1] + seq(Max(hi - lo + 1, 0), k => lo + k) + [t];
    assert forall k :: 0 <= k < |n| ==> n[k] == if k == 0 then 1 else if k == |n| - 1 then t else lo + k - 1;
  }

  /** An ellipsis always hides at least one page when `c` is a real page:
      page 2 before the window, page `t - 1` after it. */
  lemma EllipsisHidesAPage(c: int, t: int)
    requires t > 7 && 1 <= c <= t
    ensures c > 3 ==> 2 !in Numbers(PageNumbers(c, t))
    ensures c < t - 2 ==> t - 1 !in Numbers(PageNumbers(c, t))
  {
    ManyPagesShape(c, t);
  }

  /** The page the Prev or Next button asks for, or nothing when disabled. */
  function PrevTarget(currentPage: int, hasPreviousPage: bool): (r: Option<int>)
    ensures r.Some? <==> hasPreviousPage
    ensures r.Some? ==> r.value == currentPage - 1
  {
    if hasPreviousPage then Some(currentPage - 1) else None
  }

  function NextTarget(currentPage: int, hasNextPage: bool): (r: Option<int>)
    ensures r.Some? <==> hasNextPage
    ensures r.Some? ==> r.value == currentPage + 1
  {
    if hasNextPage then Some(currentPage + 1) else None
  }
}
