/** The dashboard's pagination: `Math.ceil(n / recordsPerPage)` pages and the
    page slice `filtered.slice(start, start + recordsPerPage)`, with
    JavaScript's `Array.prototype.slice` index rules. */
module Pagination {
  import opened Common

  const RecordsPerPage: int := 10

  /** `Math.ceil(n / 10)`: the fewest pages of ten that hold `n` records;
      zero for an empty list. */
  function TotalPages(n: nat): (r: nat)
    ensures r * RecordsPerPage >= n
    ensures n > 0 ==> (r - 1) * RecordsPerPage < n
    ensures r == 0 <==> n == 0
  {
    (n + RecordsPerPage - 1) / RecordsPerPage
  }

  /** How `slice` resolves an index against a length `n`: a negative index
      counts from the end, and the result is clamped to [0, n]. */
  function ResolveIndex(i: int, n: nat): (k: nat)
    ensures k <= n
    ensures 0 <= i <= n ==> k == i
    ensures i < 0 ==> k == Max(n + i, 0)
    ensures i > n ==> k == n
  {
    if i < 0 then Max(n + i, 0) else Min(i, n)
  }

  /** `s.slice(start, end)`. */
  function Slice<T>(s: seq<T>, start: int, end: int): (r: seq<T>)
    ensures |r| <= |s|
    ensures |r| == Max(ResolveIndex(end, |s|) - ResolveIndex(start, |s|), 0)
    ensures forall k :: 0 <= k < |r| ==> r[k] == s[ResolveIndex(start, |s|) + k]
  {
    var a := ResolveIndex(start, |s|);
    var b := ResolveIndex(end, |s|);
    if a < b then s[a..b] else []
  }

  /** `filtered.slice((page - 1) * 10, (page - 1) * 10 + 10)`. */
  function PageOf<T>(xs: seq<T>, page: int): (r: seq<T>)
    ensures |r| <= RecordsPerPage
  {
    var start := (page - 1) * RecordsPerPage;
    Slice(xs, start, start + RecordsPerPage)
  }

  /** For a page number of at least 1, the page is the records at positions
      `(page-1)*10` up to `min(page*10, n)`, in list order. */
  lemma PageOfIsWindow<T>(xs: seq<T>, page: int)
    requires page >= 1
    ensures PageOf(xs, page) == xs[Min((page - 1) * RecordsPerPage, |xs|)..Min(page * RecordsPerPage, |xs|)]
  {
  }

  /** Pages 1 through `TotalPages` are all non-empty; later pages are empty. */
  lemma PageEmptyIffPastLast<T>(xs: seq<T>, page: int)
    requires page >= 1
    ensures PageOf(xs, page) == [] <==> page > TotalPages(|xs|)
  {
    PageOfIsWindow(xs, page);
  }

  /** Pages 1..k laid end to end. */
  function Pages<T>(xs: seq<T>, k: nat): seq<T>
  {
    if k == 0 then [] else Pages(xs, k - 1) + PageOf(xs, k)
  }

  /** The first k pages are the first `min(10k, n)` records. */
  lemma {:induction false} PagesArePrefix<T>(xs: seq<T>, k: nat)
    ensures Pages(xs, k) == xs[..Min(k * RecordsPerPage, |xs|)]
  {
    if k > 0 {
      PagesArePrefix(xs, k - 1);
      PageOfIsWindow(xs, k);
      var a := Min((k - 1) * RecordsPerPage, |xs|);
      var b := Min(k * RecordsPerPage, |xs|);
      assert xs[..a] + xs[a..b] == xs[..b];
    }
  }

  /** The pages partition the list: concatenating pages 1..TotalPages gives
      back exactly the filtered list. */
  lemma PagesPartitionList<T>(xs: seq<T>)
    ensures Pages(xs, TotalPages(|xs|)) == xs
  {
    PagesArePrefix(xs, TotalPages(|xs|));
  }
}
