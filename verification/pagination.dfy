/** The page bar under the search results and the activity feed: at most
    five numbered buttons around the current page, shortcuts to the first
    and last page with ellipses when pages are hidden, and Previous/Next. */
module Pagination {
  import opened Wrappers

  const MaxButtons: int := 5

  /** A numbered button: the current page's is highlighted; all are
      disabled while loading. */
  datatype PageButton = PageButton(page: int, primary: bool, disabled: bool)

  /** What the bar shows. */
  datatype Bar = Bar(
    pages: seq<PageButton>,
    firstShortcut: bool,
    leadingEllipsis: bool,
    lastShortcut: bool,
    trailingEllipsis: bool,
    previousDisabled: bool,
    nextDisabled: bool)

  function Max(a: int, b: int): int { if a < b then b else a }
  function Min(a: int, b: int): int { if a < b then a else b }

  /** The first and last numbered page: centred on the current page, then
      pulled back from the end so that five pages show whenever there are
      five. */
  function Window(current: int, total: int): (r: (int, int))
    ensures r.0 >= 1 && r.1 <= total
    ensures r.1 - r.0 + 1 <= MaxButtons
  {
    var start := Max(1, current - MaxButtons / 2);
    var end := Min(total, start + MaxButtons - 1);
    if end - start < MaxButtons - 1 then (Max(1, end - MaxButtons + 1), end) else (start, end)
  }

  /** On a current page within range, the window lies within 1..total,
      contains the current page, and holds min(5, total) pages. */
  lemma WindowBounds(current: int, total: int)
    requires 1 <= current <= total
    ensures var (start, end) := Window(current, total);
      && 1 <= start <= current <= end <= total
      && end - start + 1 == Min(MaxButtons, total)
  {
  }

  /** The numbered buttons from `start` to `end`, ascending. */
  function Buttons(start: int, end: int, current: int, loading: bool): (r: seq<PageButton>)
    ensures |r| == Max(0, end - start + 1)
    ensures forall i :: 0 <= i < |r| ==> r[i].page == start + i
    ensures forall i :: 0 <= i < |r| ==> (r[i].primary <==> r[i].page == current) && r[i].disabled == loading
    decreases end - start + 1
  {
    if end < start then []
    else [PageButton(start, start == current, loading)] + Buttons(start + 1, end, current, loading)
  }

  /** The bar, or nothing when there is at most one page (a missing page
      count, sent as `null` for an unlimited page size, compares as 0). */
  function Render(current: int, totalPages: Option<int>, loading: bool): (r: Option<Bar>)
    ensures r.None? <==> totalPages.None? || totalPages.value <= 1
    ensures r.Some? ==>
      var total := totalPages.value;
      var (start, end) := Window(current, total);
      && |r.value.pages| == Max(0, end - start + 1)
      && (forall i :: 0 <= i < |r.value.pages| ==> r.value.pages[i].page == start + i)
      && (r.value.firstShortcut <==> start > 1)
      && (r.value.leadingEllipsis <==> start > 2)
      && (r.value.lastShortcut <==> end < total)
      && (r.value.trailingEllipsis <==> end < total - 1)
      && (r.value.previousDisabled <==> current == 1 || loading)
      && (r.value.nextDisabled <==> current == total || loading)
  {
    match totalPages
    case None => None
    case Some(total) =>
      if total <= 1 then None
      else
        var (start, end) := Window(current, total);
        Some(Bar(Buttons(start, end, current, loading),
                 start > 1, start > 2,
                 end < total, end < total - 1,
                 current == 1 || loading, current == total || loading))
  }

  /** With the current page in range, exactly one numbered button is
      highlighted, and it is the current page's; the first-page shortcut
      appears exactly when page 1 is not among the numbered buttons, and the
      last-page shortcut exactly when the last page is not. */
  lemma RenderHighlightsCurrent(current: int, total: int, loading: bool)
    requires 1 <= current <= total && total > 1
    ensures var bar := Render(current, Some(total), loading).value;
      && (exists i :: 0 <= i < |bar.pages| && bar.pages[i].page == current && bar.pages[i].primary)
      && (forall i, j :: 0 <= i < |bar.pages| && 0 <= j < |bar.pages| && bar.pages[i].primary && bar.pages[j].primary ==> i == j)
      && (bar.firstShortcut <==> forall i :: 0 <= i < |bar.pages| ==> bar.pages[i].page != 1)
      && (bar.lastShortcut <==> forall i :: 0 <= i < |bar.pages| ==> bar.pages[i].page != total)
  {
    WindowBounds(current, total);
    var bar := Render(current, Some(total), loading).value;
    var (start, end) := Window(current, total);
    assert bar.pages[current - start].page == current;
    if !bar.firstShortcut {
      assert bar.pages[0].page == 1;
    }
    if !bar.lastShortcut {
      assert bar.pages[|bar.pages| - 1].page == total;
    }
  }
}
