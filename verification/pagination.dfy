/**
 * Page arithmetic of the history table: the rows-per-page selector, the page
 * count, clamping the current page and cutting one page out of the filtered
 * records.
 */
module Pagination {
  import opened Wrappers

  /** The page size used when the selector is missing or holds no positive number. */
  const DefaultPageSize: int := 10

  function Min(a: int, b: int): int { if a <= b then a else b }

  function Max(a: int, b: int): int { if a <= b then b else a }

  /** The rows per page (`getPageSize`): the selector's parsed value when it is positive, else the default. */
  function PageSize(rows: Control<Option<int>>): (r: int)
    ensures r >= 1
    ensures rows.Present? && rows.value.Some? && rows.value.value > 0 ==> r == rows.value.value
    ensures !(rows.Present? && rows.value.Some? && rows.value.value > 0) ==> r == DefaultPageSize
  {
    match rows
    case Missing => DefaultPageSize
    case Present(None) => DefaultPageSize
    case Present(Some(v)) => if v <= 0 then DefaultPageSize else v
  }

  /** A page size read back from a selector that holds it is the same size. */
  lemma PageSizeIsStable(rows: Control<Option<int>>)
    ensures PageSize(Present(Some(PageSize(rows)))) == PageSize(rows)
  {
  }

  /** `Math.ceil(n / d)` for a whole numerator and a positive whole divisor. */
  function CeilDiv(n: nat, d: int): (q: nat)
    requires d > 0
    ensures n == 0 ==> q == 0
    ensures n > 0 ==> (q - 1) * d < n <= q * d
  {
    var q := (n + d - 1) / d;
    var r := (n + d - 1) % d;
    assert n + d - 1 == q * d + r && 0 <= r < d;
    assert q * d - d == (q - 1) * d;
    q
  }

  /**
   * The number of pages (`totalPages` in `renderCurrentPage` and `goToNextPage`):
   * enough pages of `size` rows to hold every record, and never fewer than one.
   */
  function TotalPages(records: nat, size: int): (t: int)
    ensures t >= 1
    ensures size > 0 && records > 0 ==> (t - 1) * size < records <= t * size
    ensures records == 0 || size <= 0 ==> t == 1
  {
    if size > 0 then Max(1, CeilDiv(records, size)) else 1
  }

  /** The current page after `renderCurrentPage` clamps it: first down to the last page, then up to 1. */
  function ClampPage(page: int, total: int): (p: int)
    ensures p >= 1
    ensures total >= 1 ==> p <= total
    ensures 1 <= page <= total ==> p == page
    ensures page > total && total >= 1 ==> p == total
    ensures page < 1 ==> p == 1
  {
    var lowered := if page > total then total else page;
    if lowered < 1 then 1 else lowered
  }

  /** How `Array.prototype.slice` resolves an index: negative ones count from the end, all are kept within the length. */
  function SliceIndex(i: int, len: nat): (k: nat)
    ensures k <= len
    ensures 0 <= i ==> k == Min(i, len)
  {
    if i < 0 then Max(len + i, 0) else Min(i, len)
  }

  /** `s.slice(start, end)`. */
  function Slice<T>(s: seq<T>, start: int, end: int): (r: seq<T>)
    ensures |r| <= |s|
    ensures 0 <= start <= end ==> r == s[Min(start, |s|)..Min(end, |s|)]
    ensures 0 <= start <= end ==> |r| <= end - start
  {
    var lo, hi := SliceIndex(start, |s|), SliceIndex(end, |s|);
    if lo < hi then s[lo..hi] else []
  }

  /** The records shown on page `page` (1-based) of `size` rows each: the slice from `(page - 1) * size` to `size` further on. */
  function Page<T>(s: seq<T>, page: int, size: int): (r: seq<T>)
    ensures |r| <= |s|
    // page n of a positive size holds at most size records, the ones from position (n - 1) * size on
    ensures page >= 1 && size >= 0 ==> |r| <= size
  {
    var start := (page - 1) * size;
    Slice(s, start, start + size)
  }

  /** Row `i` of page `page` is record `(page - 1) * size + i`. */
  lemma PageElements<T>(s: seq<T>, page: int, size: int)
    requires page >= 1 && size >= 0
    ensures forall i :: 0 <= i < |Page(s, page, size)| ==>
              (page - 1) * size + i < |s| && Page(s, page, size)[i] == s[(page - 1) * size + i]
  {
    var start := (page - 1) * size;
    MulMonotone(0, page - 1, size);
    assert Page(s, page, size) == s[Min(start, |s|)..Min(start + size, |s|)];
  }

  /**
   * A page in range is the window of `size` positions that starts after the
   * earlier pages: full on every page but the last, never empty while there
   * are records, and never longer than `size`.
   */
  lemma PageWindow<T>(s: seq<T>, page: int, size: int)
    requires size > 0 && 1 <= page <= TotalPages(|s|, size)
    ensures (page - 1) * size <= |s|
    ensures Page(s, page, size) == s[(page - 1) * size..Min(|s|, page * size)]
    ensures |Page(s, page, size)| <= size
    ensures page < TotalPages(|s|, size) ==> |Page(s, page, size)| == size
    ensures |s| > 0 ==> |Page(s, page, size)| > 0
  {
    var total := TotalPages(|s|, size);
    assert (page - 1) * size + size == page * size;
    MulMonotone(0, page - 1, size);
    assert Page(s, page, size) == Slice(s, (page - 1) * size, page * size);
    if |s| > 0 {
      MulMonotone(page - 1, total - 1, size);
      if page < total {
        MulMonotone(page, total - 1, size);
      }
    }
  }

  lemma MulMonotone(a: int, b: int, c: int)
    requires 0 <= a <= b && c >= 0
    ensures a * c <= b * c
  {
  }

  /** Pages 1 to `k` laid end to end. */
  function PagesUpTo<T>(s: seq<T>, size: int, k: int): seq<T>
    decreases k
  {
    if k <= 0 then [] else PagesUpTo(s, size, k - 1) + Page(s, k, size)
  }

  /** The records up to position `a` followed by the slice from `a` to `b` are the records up to `b`. */
  lemma PrefixThenSlice<T>(s: seq<T>, a: int, b: int)
    requires 0 <= a <= b
    ensures s[..Min(|s|, a)] + Slice(s, a, b) == s[..Min(|s|, b)]
  {
  }

  /** The first `k` pages hold exactly the first `k * size` records, in order. */
  lemma {:induction false} PagesUpToIsPrefix<T>(s: seq<T>, size: int, k: int)
    requires size > 0 && k >= 0
    ensures PagesUpTo(s, size, k) == s[..Min(|s|, k * size)]
    decreases k
  {
    if k > 0 {
      PagesUpToIsPrefix(s, size, k - 1);
      MulMonotone(0, k - 1, size);
      assert (k - 1) * size + size == k * size;
      PrefixThenSlice(s, (k - 1) * size, k * size);
    }
  }

  /** Laying all pages end to end gives back the records: every record is on a page, none on two. */
  lemma PagesPartition<T>(s: seq<T>, size: int)
    requires size > 0
    ensures PagesUpTo(s, size, TotalPages(|s|, size)) == s
  {
    var total := TotalPages(|s|, size);
    PagesUpToIsPrefix(s, size, total);
    assert Min(|s|, total * size) == |s|;
  }

  /** Record `i` lies in the window of page `p` exactly when `p` is `i / size + 1`, and that page exists. */
  lemma PageOfPosition(records: nat, size: int, i: int, p: int)
    requires size > 0 && 0 <= i < records && p >= 1
    ensures (p - 1) * size <= i < p * size <==> p == i / size + 1
    ensures i / size + 1 <= TotalPages(records, size)
  {
    var q := i / size;
    assert i == q * size + i % size;
    if (p - 1) * size <= i < p * size {
      if p - 1 < q {
        MulMonotone(p, q, size);
      } else if p - 1 > q {
        MulMonotone(q + 1, p - 1, size);
      }
    }
    assert (q + 1) * size == q * size + size;
    var total := TotalPages(records, size);
    if q + 1 > total {
      MulMonotone(total, q, size);
    }
  }

  /** The worked case: 25 records at 10 a page make pages of 10, 10 and 5. */
  lemma TwentyFiveRecordsInPagesOfTen<T>(s: seq<T>)
    requires |s| == 25
    ensures TotalPages(|s|, 10) == 3
    ensures Page(s, 1, 10) == s[..10]
    ensures Page(s, 2, 10) == s[10..20]
    ensures Page(s, 3, 10) == s[20..]
  {
  }
}
