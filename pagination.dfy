/** Page slicing, the row index a table row carries, the prev/next controls of
    `renderPagination` and the page list of `getPageNumbers`
    (app.js:40, 910-920, 1144-1206). */
module Pagination {
  import opened Records

  /** `state.itemsPerPage`. */
  const ItemsPerPage := 25

  /** How `slice` reads an index: a negative one counts from the end, and
      either way it is clamped to 0..len. */
  function SliceIndex(i: int, len: nat): (k: int)
    ensures 0 <= k <= len
    ensures 0 <= i <= len ==> k == i
  {
    if i < 0 then (if len + i < 0 then 0 else len + i)
    else if i > len then len else i
  }

  /** `s.slice(a, b)`. */
  function Slice<T>(s: seq<T>, a: int, b: int): seq<T> {
    var lo := SliceIndex(a, |s|);
    var hi := SliceIndex(b, |s|);
    if lo < hi then s[lo..hi] else []
  }

  /** The index of a page's first row. */
  function PageStart(page: int): int {
    (page - 1) * ItemsPerPage
  }

  /** The rows a table shows for `page`. */
  function PageSlice<T>(items: seq<T>, page: int): seq<T> {
    Slice(items, PageStart(page), PageStart(page) + ItemsPerPage)
  }

  function Min(a: int, b: int): int { if a <= b then a else b }
  function Max(a: int, b: int): int { if a >= b then a else b }

  /** Page `p` shows the next `min(25, max(0, len - start))` records from
      `start` on, in list order. */
  lemma PageSliceShape<T>(items: seq<T>, page: int)
    requires page >= 1
    ensures var r := PageSlice(items, page);
      |r| == Min(ItemsPerPage, Max(0, |items| - PageStart(page)))
      && forall i :: 0 <= i < |r| ==> r[i] == items[PageStart(page) + i]
  {
  }

  /** The `data-index` a row carries: its position in the whole filtered list. */
  function RowIndex(page: int, row: int): int {
    PageStart(page) + row
  }

  /** `openModal` looks the record up by that index: `list[index]`, with
      `undefined` outside the list. */
  function At<T>(items: seq<T>, index: int): (r: Option<T>)
    ensures r.Some? <==> 0 <= index < |items|
  {
    if 0 <= index < |items| then Some(items[index]) else None
  }

  /** The row index of every row of a page names the record the row shows. */
  lemma RowIndexRoundTrip<T>(items: seq<T>, page: int, row: int)
    requires page >= 1
    requires 0 <= row < |PageSlice(items, page)|
    ensures At(items, RowIndex(page, row)) == Some(PageSlice(items, page)[row])
  {
    PageSliceShape(items, page);
  }

  /** Every record is shown on exactly one page: record `k` is row `k % 25`
      of page `k / 25 + 1`, and on no other page. */
  lemma EachRecordOnOnePage<T>(items: seq<T>, k: int, page: int)
    requires 0 <= k < |items| && page >= 1
    ensures var home := k / ItemsPerPage + 1;
      0 <= k % ItemsPerPage < |PageSlice(items, home)|
      && PageSlice(items, home)[k % ItemsPerPage] == items[k]
      && RowIndex(home, k % ItemsPerPage) == k
    ensures (PageStart(page) <= k < PageStart(page) + ItemsPerPage) <==> page == k / ItemsPerPage + 1
  {
    var home := k / ItemsPerPage + 1;
    PageSliceShape(items, home);
    PageSliceShape(items, page);
    if PageStart(page) <= k < PageStart(page) + ItemsPerPage {
      assert (page - 1) * ItemsPerPage <= k < (page - 1) * ItemsPerPage + ItemsPerPage;
      assert k / ItemsPerPage == page - 1;
    }
  }

  /** `Math.ceil(totalItems / itemsPerPage)`. */
  function TotalPages(totalItems: nat): (p: nat)
    ensures p * ItemsPerPage >= totalItems
    ensures p == 0 || (p - 1) * ItemsPerPage < totalItems
  {
    (totalItems + ItemsPerPage - 1) / ItemsPerPage
  }

  /** A page whose slice is not empty is one of the `TotalPages` pages. */
  lemma NonEmptyPageInRange<T>(items: seq<T>, page: int)
    requires page >= 1
    requires PageSlice(items, page) != []
    ensures page <= TotalPages(|items|)
  {
    PageSliceShape(items, page);
    assert (page - 1) * ItemsPerPage < |items|;
  }

  /** One entry of the page list: a page number or the `'...'` marker. */
  datatype PageItem = Num(n: int) | Gap

  /** The loop's test for page `i`: the first, the last, or within 2 of the
      current page. */
  predicate Shown(i: int, current: int, total: int) {
    i == 1 || i == total || (current - 2 <= i && i <= current + 2)
  }

  /** The list `getPageNumbers` has built after its first `i` iterations. */
  function PagesUpTo(current: int, total: int, i: nat): seq<PageItem>
    decreases i
  {
    if i == 0 then []
    else
      var prev := PagesUpTo(current, total, i - 1);
      if Shown(i, current, total) then prev + [Num(i)]
      else if |prev| == 0 || prev[|prev| - 1] != Gap then prev + [Gap]
      else prev
  }

  function PageNumbers(current: int, total: int): seq<PageItem> {
    PagesUpTo(current, total, if total < 0 then 0 else total)
  }

  /** `getPageNumbers(current, total)`. */
  method GetPageNumbers(current: int, total: int) returns (pages: seq<PageItem>)
    ensures pages == PageNumbers(current, total)
  {
    pages := [];
    var i := 1;
    while i <= total
      invariant 1 <= i && (total >= 0 ==> i <= total + 1) && (total < 0 ==> i == 1)
      invariant pages == PagesUpTo(current, total, i - 1)
    {
      if Shown(i, current, total) {
        pages := pages + [Num(i)];
      } else if |pages| == 0 || pages[|pages| - 1] != Gap {
        pages := pages + [Gap];
      }
      i := i + 1;
    }
    assert i - 1 == (if total < 0 then 0 else total);
  }

  /** The entry the list ends with after `i` steps: page `i` when that is
      shown, a gap otherwise. */
  function LastEntry(i: int, current: int, total: int): PageItem {
    if Shown(i, current, total) then Num(i) else Gap
  }

  /** After `i` steps the list starts with page 1, ends with `LastEntry`, and
      holds only shown pages up to `i`. */
  lemma {:induction false} PagesUpToBasics(current: int, total: int, i: nat)
    requires 1 <= i <= total
    ensures var p := PagesUpTo(current, total, i);
      |p| > 0 && p[0] == Num(1) && p[|p| - 1] == LastEntry(i, current, total)
      && forall a :: 0 <= a < |p| && p[a].Num? ==> 1 <= p[a].n <= i && Shown(p[a].n, current, total)
    decreases i
  {
    if i > 1 {
      PagesUpToBasics(current, total, i - 1);
      var prev := PagesUpTo(current, total, i - 1);
      var p := PagesUpTo(current, total, i);
      assert p == prev + [LastEntry(i, current, total)] || p == prev;
      assert forall a :: 0 <= a < |prev| ==> p[a] == prev[a];
    }
  }

  /** The numbers of the list increase strictly. */
  lemma {:induction false} PagesUpToIncreasing(current: int, total: int, i: nat)
    requires 1 <= i <= total
    ensures var p := PagesUpTo(current, total, i);
      forall a, b :: 0 <= a < b < |p| && p[a].Num? && p[b].Num? ==> p[a].n < p[b].n
    decreases i
  {
    if i > 1 {
      PagesUpToIncreasing(current, total, i - 1);
      PagesUpToBasics(current, total, i - 1);
      var prev := PagesUpTo(current, total, i - 1);
      var p := PagesUpTo(current, total, i);
      assert p == prev + [LastEntry(i, current, total)] || p == prev;
      assert forall a :: 0 <= a < |prev| ==> p[a] == prev[a];
    }
  }

  /** Every shown page up to `i` is in the list. */
  lemma {:induction false} PagesUpToComplete(current: int, total: int, i: nat, k: int)
    requires 1 <= k <= i <= total && Shown(k, current, total)
    ensures Num(k) in PagesUpTo(current, total, i)
    decreases i
  {
    var p := PagesUpTo(current, total, i);
    PagesUpToBasics(current, total, i);
    if k < i {
      PagesUpToComplete(current, total, i - 1, k);
      var prev := PagesUpTo(current, total, i - 1);
      assert forall x :: x in prev ==> x in p;
    } else {
      assert p[|p| - 1] == Num(k);
    }
  }

  /** Two numbers side by side are consecutive pages. */
  lemma {:induction false} PagesUpToAdjacent(current: int, total: int, i: nat)
    requires 1 <= i <= total
    ensures var p := PagesUpTo(current, total, i);
      forall a :: 0 <= a < |p| - 1 && p[a].Num? && p[a + 1].Num? ==> p[a + 1].n == p[a].n + 1
    decreases i
  {
    if i > 1 {
      PagesUpToAdjacent(current, total, i - 1);
      PagesUpToBasics(current, total, i - 1);
      var prev := PagesUpTo(current, total, i - 1);
      var p := PagesUpTo(current, total, i);
      assert p == prev + [LastEntry(i, current, total)] || p == prev;
      assert forall a :: 0 <= a < |prev| ==> p[a] == prev[a];
    }
  }

  /** A gap follows a number, and when a number follows it the two numbers
      around it are not consecutive pages. */
  predicate GapsBetween(p: seq<PageItem>) {
    forall a :: 0 <= a < |p| && p[a] == Gap ==>
      0 < a && p[a - 1].Num? && (a + 1 < |p| ==> p[a + 1].Num? && p[a + 1].n > p[a - 1].n + 1)
  }

  lemma AppendNumKeepsGaps(prev: seq<PageItem>, x: int)
    requires GapsBetween(prev)
    requires |prev| > 0 && prev[|prev| - 1] == Gap ==> |prev| > 1 && prev[|prev| - 2].Num? && prev[|prev| - 2].n + 1 < x
    ensures GapsBetween(prev + [Num(x)])
  {
    var p := prev + [Num(x)];
    forall a | 0 <= a < |p| && p[a] == Gap
      ensures 0 < a && p[a - 1].Num? && (a + 1 < |p| ==> p[a + 1].Num? && p[a + 1].n > p[a - 1].n + 1)
    {
      assert prev[a] == Gap;
      if a + 1 < |prev| {
        assert p[a + 1] == prev[a + 1];
      }
    }
  }

  lemma AppendGapKeepsGaps(prev: seq<PageItem>)
    requires GapsBetween(prev)
    requires |prev| > 0 && prev[|prev| - 1].Num?
    ensures GapsBetween(prev + [Gap])
  {
    var p := prev + [Gap];
    forall a | 0 <= a < |p| && p[a] == Gap
      ensures 0 < a && p[a - 1].Num? && (a + 1 < |p| ==> p[a + 1].Num? && p[a + 1].n > p[a - 1].n + 1)
    {
      if a < |prev| {
        assert prev[a] == Gap;
        assert p[a + 1] == prev[a + 1];
      }
    }
  }

  lemma {:induction false} PagesUpToGaps(current: int, total: int, i: nat)
    requires 1 <= i <= total
    ensures GapsBetween(PagesUpTo(current, total, i))
    decreases i
  {
    if i > 1 {
      PagesUpToGaps(current, total, i - 1);
      PagesUpToBasics(current, total, i - 1);
      var prev := PagesUpTo(current, total, i - 1);
      var g := |prev| - 1;
      if Shown(i, current, total) {
        if prev[g] == Gap {
          assert prev[g - 1].n <= i - 1 && prev[g - 1].n != i - 1;
        }
        AppendNumKeepsGaps(prev, i);
      } else if prev[g] != Gap {
        AppendGapKeepsGaps(prev);
      }
    } else {
      assert PagesUpTo(current, total, i) == [Num(1)];
    }
  }

  /** For at least one page: the list begins with 1 and ends with `total`,
      its numbers increase strictly, a page number appears exactly when it
      is 1, `total` or within 2 of the current page, two numbers side by side
      are consecutive, and every `'...'` sits between two numbers that are
      not (so there are never two in a row). */
  lemma PageNumbersProperties(current: int, total: int)
    requires total >= 1
    ensures var p := PageNumbers(current, total);
      |p| > 0 && p[0] == Num(1) && p[|p| - 1] == Num(total)
      && (forall a, b :: 0 <= a < b < |p| && p[a].Num? && p[b].Num? ==> p[a].n < p[b].n)
      && (forall k :: Num(k) in p <==> 1 <= k <= total && Shown(k, current, total))
      && (forall a :: 0 <= a < |p| - 1 && p[a].Num? && p[a + 1].Num? ==> p[a + 1].n == p[a].n + 1)
      && (forall a :: 0 <= a < |p| && p[a] == Gap ==>
            0 < a < |p| - 1 && p[a - 1].Num? && p[a + 1].Num? && p[a + 1].n > p[a - 1].n + 1)
  {
    PageNumbersOrder(current, total);
    PageNumbersGaps(current, total);
    forall k
      ensures Num(k) in PageNumbers(current, total) <==> 1 <= k <= total && Shown(k, current, total)
    {
      PageNumbersHas(current, total, k);
    }
  }

  /** The list runs from 1 to `total` in increasing order, and numbers side
      by side are consecutive pages. */
  lemma PageNumbersOrder(current: int, total: int)
    requires total >= 1
    ensures var p := PageNumbers(current, total);
      |p| > 0 && p[0] == Num(1) && p[|p| - 1] == Num(total)
      && (forall a, b :: 0 <= a < b < |p| && p[a].Num? && p[b].Num? ==> p[a].n < p[b].n)
      && (forall a :: 0 <= a < |p| - 1 && p[a].Num? && p[a + 1].Num? ==> p[a + 1].n == p[a].n + 1)
  {
    PagesUpToBasics(current, total, total);
    PagesUpToIncreasing(current, total, total);
    PagesUpToAdjacent(current, total, total);
  }

  /** A gap stands between two numbers that are not consecutive pages. */
  lemma PageNumbersGaps(current: int, total: int)
    requires total >= 1
    ensures var p := PageNumbers(current, total);
      forall a :: 0 <= a < |p| && p[a] == Gap ==>
        0 < a < |p| - 1 && p[a - 1].Num? && p[a + 1].Num? && p[a + 1].n > p[a - 1].n + 1
  {
    PagesUpToBasics(current, total, total);
    PagesUpToGaps(current, total, total);
  }

  /** A page number is listed exactly when it is a page and `Shown`. */
  lemma PageNumbersHas(current: int, total: int, k: int)
    requires total >= 1
    ensures Num(k) in PageNumbers(current, total) <==> 1 <= k <= total && Shown(k, current, total)
  {
    var p := PageNumbers(current, total);
    PagesUpToBasics(current, total, total);
    if Num(k) in p {
      var a :| 0 <= a < |p| && p[a] == Num(k);
    }
    if 1 <= k <= total && Shown(k, current, total) {
      PagesUpToComplete(current, total, total, k);
    }
  }

  /** The pagination bar, or `NoBar` when there is at most one page. */
  datatype Bar =
    | NoBar
    | Bar(prevDisabled: bool, prevTarget: int, pages: seq<PageItem>, active: int,
          nextDisabled: bool, nextTarget: int)

  /** `renderPagination` for the current page of a list of `totalItems`. */
  function RenderPagination(current: int, totalItems: nat): Bar {
    var totalPages := TotalPages(totalItems);
    if totalPages <= 1 then NoBar
    else Bar(current == 1, current - 1, PageNumbers(current, totalPages), current,
             current == totalPages, current + 1)
  }

  /** A bar is drawn exactly when the list needs more than one page; its
      enabled buttons always lead to an existing page when the current page
      shows rows (the only case in which the table draws the bar). */
  lemma BarTargets<T>(items: seq<T>, page: int)
    requires page >= 1 && PageSlice(items, page) != []
    ensures var bar := RenderPagination(page, |items|);
      (bar.Bar? <==> |items| > ItemsPerPage)
      && (bar.Bar? && !bar.prevDisabled ==> 1 <= bar.prevTarget <= TotalPages(|items|))
      && (bar.Bar? && !bar.nextDisabled ==> 1 <= bar.nextTarget <= TotalPages(|items|))
      && (bar.Bar? ==> bar.prevDisabled == (page == 1) && bar.nextDisabled == (page == TotalPages(|items|)))
  {
    NonEmptyPageInRange(items, page);
  }
}
