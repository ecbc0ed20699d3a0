/**
 * The pagination bar: page count, the clamped current page, the sliding
 * window of page numbers with first/last shortcuts and ellipses, and the
 * `rel` prev/next links.
 */
module Pagination {
  import opened Base
  import opened Arith

  /** `Math.max(1, Math.ceil(total / pageSize))`. */
  function TotalPages(total: int, pageSize: int): (t: int)
    requires pageSize >= 1
    ensures t >= 1
    ensures total <= t * pageSize
    ensures t > 1 ==> (t - 1) * pageSize < total
  {
    CeilDivBounds(total, pageSize);
    Max(1, CeilDiv(total, pageSize))
  }

  /**
   * `Math.min(Math.max(1, Number(page) || 1), totalPages)`; `page` is
   * `Number(page)`, with `None` for NaN.
   */
  function Current(page: Option<int>, totalPages: int): (c: int)
    requires totalPages >= 1
    ensures 1 <= c <= totalPages
    ensures page.Some? && 1 <= page.value <= totalPages ==> c == page.value
    ensures page.None? || page == Some(0) ==> c == 1
  {
    var n := if page.Some? && page.value != 0 then page.value else 1;
    Min(Max(1, n), totalPages)
  }

  /** The consecutive page numbers `start..end` (empty when `end < start`). */
  function Range(start: int, end: int): (r: seq<int>)
    ensures |r| == if end < start then 0 else end - start + 1
    ensures forall i :: 0 <= i < |r| ==> r[i] == start + i
  {
    if end < start then [] else seq(end - start + 1, i requires 0 <= i <= end - start => start + i)
  }

  /** The memoised window: centre on `current`, cut at `totalPages`, then slide back to keep its width. */
  function Window(current: int, totalPages: int, maxPagesToShow: int): seq<int> {
    var half := maxPagesToShow / 2;
    var start := Max(1, current - half);
    var end := Min(totalPages, start + maxPagesToShow - 1);
    Range(Max(1, Min(start, end - maxPagesToShow + 1)), end)
  }

  /** For a window at least one wide: contiguous, inside the pages, around `current`, as wide as it can be. */
  lemma WindowShape(current: int, totalPages: int, maxPagesToShow: int)
    requires 1 <= current <= totalPages && maxPagesToShow >= 1
    ensures var w := Window(current, totalPages, maxPagesToShow);
      |w| == Min(totalPages, maxPagesToShow)
      && (forall i :: 0 <= i < |w| ==> 1 <= w[i] <= totalPages)
      && (forall i :: 0 < i < |w| ==> w[i] == w[i - 1] + 1)
      && current in w
  {
    var w := Window(current, totalPages, maxPagesToShow);
    var half := maxPagesToShow / 2;
    var start := Max(1, current - half);
    assert half <= maxPagesToShow - 1;
    var end := Min(totalPages, start + maxPagesToShow - 1);
    var s := Max(1, Min(start, end - maxPagesToShow + 1));
    assert s <= current <= end;
    assert w[current - s] == current;
  }

  /** What the bar renders when there is more than one page. */
  datatype Bar = Bar(
    prevDisabled: bool, showFirst: bool, leadingEllipsis: bool, pages: seq<int>,
    trailingEllipsis: bool, showLast: bool, nextDisabled: bool, totalPages: int, current: int)

  /** The rendered bar, or `None` (the component returns null) for a single page. */
  function Render(total: int, page: Option<int>, pageSize: int, maxPagesToShow: int): (r: Option<Bar>)
    requires pageSize >= 1
    ensures r.None? <==> TotalPages(total, pageSize) <= 1
    ensures r.Some? ==> r.value.totalPages == TotalPages(total, pageSize) && r.value.current == Current(page, r.value.totalPages)
    ensures r.Some? ==> (r.value.prevDisabled <==> r.value.current == 1)
    ensures r.Some? ==> (r.value.nextDisabled <==> r.value.current == r.value.totalPages)
  {
    var t := TotalPages(total, pageSize);
    var c := Current(page, t);
    var w := Window(c, t, maxPagesToShow);
    if t <= 1 then None
    else Some(Bar(
      prevDisabled := c == 1,
      showFirst := |w| > 0 && w[0] > 1,
      leadingEllipsis := |w| > 0 && w[0] > 2,
      pages := w,
      trailingEllipsis := |w| > 0 && w[|w| - 1] < t - 1,
      showLast := |w| > 0 && w[|w| - 1] < t,
      nextDisabled := c == t,
      totalPages := t,
      current := c))
  }

  /** The page numbers linked around window `w`: 1 if the window starts later, the last page if it ends earlier. */
  function Links(w: seq<int>, totalPages: int): seq<int>
    requires |w| >= 1
  {
    (if w[0] > 1 then [1] else []) + w + (if w[|w| - 1] < totalPages then [totalPages] else [])
  }

  /**
   * Around a contiguous window inside `1..totalPages`, the links run strictly
   * upwards from 1 to the last page, and a page not linked lies in a gap
   * before or after the window.
   */
  lemma LinksCover(w: seq<int>, totalPages: int)
    requires |w| >= 1
    requires forall i :: 0 <= i < |w| ==> 1 <= w[i] <= totalPages
    requires forall i :: 0 < i < |w| ==> w[i] == w[i - 1] + 1
    ensures var links := Links(w, totalPages);
      links[0] == 1 && links[|links| - 1] == totalPages
      && (forall i :: 0 < i < |links| ==> links[i - 1] < links[i])
      && (forall p :: 1 <= p <= totalPages ==> p in links || 1 < p < w[0] || w[|w| - 1] < p < totalPages)
  {
    var links := Links(w, totalPages);
    var first: seq<int> := if w[0] > 1 then [1] else [];
    var last: seq<int> := if w[|w| - 1] < totalPages then [totalPages] else [];
    assert links == first + w + last;
    assert forall i :: 0 <= i < |w| ==> w[i] == w[0] + i by {
      forall i | 0 <= i < |w| ensures w[i] == w[0] + i {
        WindowStep(w, i);
      }
    }
    forall p | 1 <= p <= totalPages
      ensures p in links || 1 < p < w[0] || w[|w| - 1] < p < totalPages
    {
      if w[0] <= p <= w[|w| - 1] {
        assert links[|first| + (p - w[0])] == p;
      }
    }
  }

  lemma {:induction false} WindowStep(w: seq<int>, i: int)
    requires 0 <= i < |w|
    requires forall j :: 0 < j < |w| ==> w[j] == w[j - 1] + 1
    ensures w[i] == w[0] + i
  {
    if i > 0 {
      WindowStep(w, i - 1);
    }
  }

  /**
   * With a window at least one wide, the bar's links run strictly upwards
   * from 1 to the last page, every page not linked sits in a gap marked by an
   * ellipsis, and an ellipsis never marks an empty gap.
   */
  lemma BarCoversAllPages(total: int, page: Option<int>, pageSize: int, maxPagesToShow: int)
    requires pageSize >= 1 && maxPagesToShow >= 1
    requires Render(total, page, pageSize, maxPagesToShow).Some?
    ensures var b := Render(total, page, pageSize, maxPagesToShow).value;
      |b.pages| >= 1
      && (b.showFirst <==> b.pages[0] > 1)
      && (b.showLast <==> b.pages[|b.pages| - 1] < b.totalPages)
      && (b.leadingEllipsis <==> b.pages[0] - 1 >= 2)
      && (b.trailingEllipsis <==> b.totalPages - b.pages[|b.pages| - 1] >= 2)
      && var links := Links(b.pages, b.totalPages);
      links[0] == 1 && links[|links| - 1] == b.totalPages
      && (forall i :: 0 < i < |links| ==> links[i - 1] < links[i])
      && (forall p :: 1 <= p <= b.totalPages ==>
            p in links
            || (b.leadingEllipsis && 1 < p < b.pages[0])
            || (b.trailingEllipsis && b.pages[|b.pages| - 1] < p < b.totalPages))
  {
    var t := TotalPages(total, pageSize);
    var c := Current(page, t);
    var w := Window(c, t, maxPagesToShow);
    var b := Render(total, page, pageSize, maxPagesToShow).value;
    assert b.pages == w && b.totalPages == t && b.current == c;
    WindowShape(c, t, maxPagesToShow);
    LinksCover(w, t);
  }

  /** The `rel` links added to the document head: only for targets that are real pages. */
  function RelLinks(current: int, totalPages: int): (r: seq<(string, int)>)
    ensures forall i :: 0 <= i < |r| ==> 1 <= r[i].1 <= totalPages
    ensures ("prev", current - 1) in r <==> 1 <= current - 1 <= totalPages
    ensures ("next", current + 1) in r <==> 1 <= current + 1 <= totalPages
  {
    (if 1 <= current - 1 <= totalPages then [("prev", current - 1)] else [])
    + (if 1 <= current + 1 <= totalPages then [("next", current + 1)] else [])
  }
}
