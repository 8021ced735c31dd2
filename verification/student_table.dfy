/** `StudentTable`: the "Showing start-end of total" range, the five-wide
    window of page buttons, the Previous/Next buttons and the blood-group
    badge colour index. */
module StudentTable {
  import opened Common
  import opened Pagination

  /** `startRecord = (currentPage - 1) * recordsPerPage + 1`. */
  function StartRecord(page: int, perPage: int): (r: int)
    ensures page >= 1 && perPage >= 0 ==> r >= 1
    ensures perPage >= 1 ==> (page - 1) * perPage < r <= page * perPage
  {
    (page - 1) * perPage + 1
  }

  /** `endRecord = Math.min(currentPage * recordsPerPage, totalRecords)`. */
  function EndRecord(page: int, perPage: int, total: int): (r: int)
    ensures r <= total && r <= page * perPage
    ensures r == total || r == page * perPage
  {
    Min(page * perPage, total)
  }

  /** On a real page, the badge's 1-based range names exactly the records the
      table shows: the page is `xs[start-1 .. end]`, so its length is
      `end - start + 1`. */
  lemma ShownRangeIsPage<T>(xs: seq<T>, page: int)
    requires 1 <= page <= TotalPages(|xs|)
    ensures 1 <= StartRecord(page, RecordsPerPage) <= EndRecord(page, RecordsPerPage, |xs|) <= |xs|
    ensures PageOf(xs, page) == xs[StartRecord(page, RecordsPerPage) - 1..EndRecord(page, RecordsPerPage, |xs|)]
    ensures |PageOf(xs, page)| == EndRecord(page, RecordsPerPage, |xs|) - StartRecord(page, RecordsPerPage) + 1
  {
    PageOfIsWindow(xs, page);
  }

  const WindowWidth: int := 5

  /** The page number on button `i` of the window. */
  function WindowEntry(i: int, current: int, total: int): int
  {
    if total <= WindowWidth then i + 1
    else if current <= 3 then i + 1
    else if current >= total - 2 then total - 4 + i
    else current - 2 + i
  }

  /** The page-number buttons: `min(5, totalPages)` consecutive page numbers,
      all within [1, totalPages] whatever the current page, and including the
      current page whenever it is itself within range. */
  function PageWindow(current: int, total: nat): (w: seq<int>)
    ensures |w| == Min(WindowWidth, total)
    ensures forall i :: 0 <= i < |w| ==> 1 <= w[i] <= total
    ensures forall i :: 0 < i < |w| ==> w[i] == w[i - 1] + 1
    ensures 1 <= current <= total ==> current in w
  {
    var w := seq(Min(WindowWidth, total), i => WindowEntry(i, current, total));
    assert 1 <= current <= total ==> w[current - w[0]] == current;
    w
  }

  /** The pagination controls. `PageButton(i)` is the i-th window button. */
  datatype Control = PreviousButton | NextButton | PageButton(index: int)

  /** Pagination controls are rendered only with more than one page. */
  predicate ControlsShown(total: int)
  {
    total > 1
  }

  /** The page a press asks for, or None when the control is not rendered or
      is disabled (Previous on page 1, Next on the last page). */
  function Press(current: int, total: nat, c: Control): (r: Option<int>)
    ensures r.Some? ==> ControlsShown(total)
    ensures c.PreviousButton? ==> (r.Some? <==> ControlsShown(total) && current != 1)
    ensures c.NextButton? ==> (r.Some? <==> ControlsShown(total) && current != total)
    ensures c.PageButton? ==> (r.Some? <==> ControlsShown(total) && 0 <= c.index < Min(WindowWidth, total))
    ensures 1 <= current <= total && r.Some? ==> 1 <= r.value <= total
    ensures c.PreviousButton? && r.Some? ==> r.value == current - 1
    ensures c.NextButton? && r.Some? ==> r.value == current + 1
    ensures c.PageButton? && r.Some? ==> r.value == PageWindow(current, total)[c.index]
  {
    if !ControlsShown(total) then None
    else match c
      case PreviousButton => if current == 1 then None else Some(current - 1)
      case NextButton => if current == total then None else Some(current + 1)
      case PageButton(i) =>
        var w := PageWindow(current, total);
        if 0 <= i < |w| then Some(w[i]) else None
  }

  /** The four badge colours, in the order the source lists them. */
  const BloodGroupColors: seq<string> := ["red", "green", "yellow", "purple"]

  /** `colors[bloodGroup.length % colors.length]`: the index is always valid. */
  function BloodGroupColor(bloodGroup: string): (c: string)
    ensures c in BloodGroupColors
  {
    BloodGroupColors[|bloodGroup| % |BloodGroupColors|]
  }
}
