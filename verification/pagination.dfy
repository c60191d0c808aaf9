/** The pager under the import-history table: the window of page buttons
    around the current page, and when the pager and its Previous/Next
    buttons are shown or disabled. Page numbers are 1-based integers as the
    server reports them. */
module Pagination {
  import opened Wrappers
  import opened Numbers

  /** At most this many page buttons are shown at once. */
  const MaxVisible := 5

  /** The integers `lo`, `lo + 1`, ..., `hi` (empty when `lo > hi`): the
      `for (let i = startPage; i <= endPage; i++)` loop. */
  function Range(lo: int, hi: int): (r: seq<int>)
    ensures |r| == Max(0, hi - lo + 1)
    ensures forall i :: 0 <= i < |r| ==> r[i] == lo + i
    decreases hi - lo
  {
    if lo > hi then [] else [lo] + Range(lo + 1, hi)
  }

  /** `getPageNumbers`: start two pages before the current one (not before
      page 1), take up to five pages (not past the last), and when that
      gives fewer than five, slide the start back (not before page 1). */
  function PageNumbers(page: int, pages: int): (r: seq<int>)
    ensures |r| <= MaxVisible
    ensures forall i :: 0 <= i < |r| ==> 1 <= r[i] <= pages
    ensures forall i :: 0 < i < |r| ==> r[i] == r[i - 1] + 1
  {
    var start := Max(1, page - MaxVisible / 2);
    var end := Min(pages, start + MaxVisible - 1);
    var start' := if end - start < MaxVisible - 1 then Max(1, end - MaxVisible + 1) else start;
    Range(start', end)
  }

  /** The window described without the sliding step: the `min(5, pages)`
      consecutive pages whose first page is `page - 2` pulled into the range
      that keeps the window inside `1..pages`. */
  function CenteredWindow(page: int, pages: int): seq<int>
    requires pages >= 1
  {
    var n := Min(MaxVisible, pages);
    var first := Min(Max(1, page - MaxVisible / 2), pages - n + 1);
    Range(first, first + n - 1)
  }

  /** For a current page within `1..pages`, the buttons are the centred
      window. */
  lemma PageNumbersIsCenteredWindow(page: int, pages: int)
    requires 1 <= page <= pages
    ensures PageNumbers(page, pages) == CenteredWindow(page, pages)
  {
  }

  /** For a current page within `1..pages`: consecutive ascending page
      numbers inside `1..pages`, `min(5, pages)` of them, including the
      current page; the first page opens the window at 1 and the last page
      closes it at `pages`; with two pages to spare on each side the current
      page is in the middle. */
  lemma PageWindow(page: int, pages: int)
    requires 1 <= page <= pages
    ensures var r := PageNumbers(page, pages);
            && |r| == Min(MaxVisible, pages)
            && (forall i :: 0 <= i < |r| ==> 1 <= r[i] <= pages)
            && (forall i :: 0 < i < |r| ==> r[i] == r[i - 1] + 1)
            && page in r
            && (page == 1 ==> r[0] == 1)
            && (page == pages ==> r[|r| - 1] == pages)
            && (3 <= page <= pages - 2 ==> r[2] == page)
  {
    PageNumbersIsCenteredWindow(page, pages);
    var r := PageNumbers(page, pages);
    var n := Min(MaxVisible, pages);
    var first := Min(Max(1, page - MaxVisible / 2), pages - n + 1);
    assert r[page - first] == page;
  }

  /** A page button: its number, and whether it is the current page (shown
      with the filled variant). */
  datatype PageButton = PageButton(page: int, current: bool)

  /** What the pager renders: the two arrow buttons' disabled states and the
      page buttons in between. */
  datatype Pager = Pager(previousDisabled: bool, nextDisabled: bool, buttons: seq<PageButton>)

  function Buttons(numbers: seq<int>, page: int): (r: seq<PageButton>)
    ensures |r| == |numbers|
    ensures forall i :: 0 <= i < |r| ==> r[i].page == numbers[i]
    ensures forall i :: 0 <= i < |r| ==> (r[i].current <==> numbers[i] == page)
  {
    if numbers == [] then [] else [PageButton(numbers[0], numbers[0] == page)] + Buttons(numbers[1..], page)
  }

  /** The component: nothing at all for one page or fewer, otherwise the
      arrows (Previous disabled on page 1, Next on the last page) around the
      page buttons. */
  function Render(page: int, pages: int): (r: Option<Pager>)
    ensures r.Some? <==> pages > 1
    ensures r.Some? ==> |r.value.buttons| <= MaxVisible
    ensures r.Some? ==> forall i :: 0 <= i < |r.value.buttons| ==> 1 <= r.value.buttons[i].page <= pages
  {
    if pages <= 1 then None
    else Some(Pager(page == 1, page == pages, Buttons(PageNumbers(page, pages), page)))
  }

  /** The rendering rules: shown exactly when there are at least two pages,
      Previous disabled exactly on page 1 and Next exactly on the last page,
      so that for a current page within range an enabled arrow leads to a
      page within range. */
  lemma RenderRules(page: int, pages: int)
    ensures Render(page, pages).Some? <==> pages > 1
    ensures Render(page, pages).Some? ==>
              (Render(page, pages).value.previousDisabled <==> page == 1)
              && (Render(page, pages).value.nextDisabled <==> page == pages)
    ensures Render(page, pages).Some? && 1 <= page <= pages ==>
              var p := Render(page, pages).value;
              && (!p.previousDisabled ==> 1 <= page - 1 <= pages)
              && (!p.nextDisabled ==> 1 <= page + 1 <= pages)
  {
  }

  /** For a current page within range, exactly one page button is marked
      as the current page. */
  lemma OneCurrentButton(page: int, pages: int)
    requires 1 <= page <= pages && pages > 1
    ensures var b := Render(page, pages).value.buttons;
            exists k :: 0 <= k < |b| && b[k].current && forall i :: 0 <= i < |b| && b[i].current ==> i == k
  {
    PageNumbersIsCenteredWindow(page, pages);
    var b := Render(page, pages).value.buttons;
    var n := Min(MaxVisible, pages);
    var first := Min(Max(1, page - MaxVisible / 2), pages - n + 1);
    var k := page - first;
    assert b[k].current;
  }
}
