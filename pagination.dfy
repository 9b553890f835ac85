/** The page arithmetic of `_add_category_slides` (app.py:247-267): how
    many slides a category gets, which records each slide shows, the
    running numbers, and the slide titles. `items_per_page` is any Python
    integer: floor division and slicing are written out as Python does
    them, and the properties below are proved for positive values. */
module Pagination {
  import opened Text
  import opened Seqs

  /** Python's `a // b` (rounds toward minus infinity). */
  function FloorDiv(a: int, b: int): (q: int)
    requires b != 0
    ensures b > 0 ==> b * q <= a < b * q + b
    ensures b < 0 ==> b * q >= a > b * q + b
  {
    if b > 0 then a / b else (-a) / (-b)
  }

  function Min(a: int, b: int): int
  {
    if a < b then a else b
  }

  /** A Python slice bound: negative counts from the end, then clamped. */
  function SliceBound(i: int, n: nat): (r: nat)
    ensures r <= n
    ensures 0 <= i <= n ==> r == i
  {
    if i < 0 then (if i + n < 0 then 0 else i + n) else if i > n then n else i
  }

  /** Python's `s[i:j]`. */
  function PySlice<T>(s: seq<T>, i: int, j: int): (r: seq<T>)
    ensures 0 <= i <= j <= |s| ==> r == s[i..j]
  {
    var a, b := SliceBound(i, |s|), SliceBound(j, |s|);
    if a < b then s[a..b] else []
  }

  /** `total_pages` (app.py:251); `range` of a negative count is empty. An
      empty list returns before the division (app.py:247-248). */
  function PageCount(n: nat, k: int): nat
    requires n > 0 ==> k != 0
  {
    if n == 0 then 0
    else
      var t := FloorDiv(n + k - 1, k);
      if t < 0 then 0 else t
  }

  /** `start_idx` of page `p` (app.py:254). */
  function PageStart(p: nat, k: int): int
  {
    p * k
  }

  /** `page_items` of page `p` (app.py:254-256). */
  function PageItems<T>(items: seq<T>, k: int, p: nat): seq<T>
  {
    var start := PageStart(p, k);
    PySlice(items, start, Min(start + k, |items|))
  }

  /** The slides of one category, as lists of records. */
  function Pages<T>(items: seq<T>, k: int): (pages: seq<seq<T>>)
    requires items != [] ==> k != 0
    ensures |pages| == PageCount(|items|, k)
  {
    seq(PageCount(|items|, k), p requires 0 <= p => PageItems(items, k, p))
  }

  /** The title of slide `p` of `total` (app.py:264-267): the category,
      followed by `(p+1/total)` only when there is more than one slide. */
  function PageTitle(category: string, p: nat, total: int): string
  {
    if total > 1 then category + " (" + NatToString(p + 1) + "/" + NatToString(total) + ")"
    else category
  }

  /** The slide count is the ceiling of n / k: enough slides for every
      record, and no slide more than needed. An empty category has none. */
  lemma PageCountIsCeiling(n: nat, k: int)
    requires k > 0
    ensures n == 0 <==> PageCount(n, k) == 0
    ensures n > 0 ==> (PageCount(n, k) - 1) * k < n <= PageCount(n, k) * k
  {
    if n > 0 {
      var t := FloorDiv(n + k - 1, k);
      assert k * t <= n + k - 1 < k * t + k;
      assert k * t > 0;
      assert t >= 1;
      assert (t - 1) * k == k * t - k;
    }
  }

  /** Slide `p` shows `items[p*k .. min(p*k+k, n)]`: never empty, at most
      `k` records, and exactly `k` on every slide but the last. */
  lemma PageBounds<T>(items: seq<T>, k: int, p: nat)
    requires k > 0 && p < PageCount(|items|, k)
    ensures p * k < |items|
    ensures PageItems(items, k, p) == items[p * k .. Min(p * k + k, |items|)]
    ensures 1 <= |PageItems(items, k, p)| <= k
    ensures p < PageCount(|items|, k) - 1 ==> |PageItems(items, k, p)| == k
  {
    var n, pc := |items|, PageCount(|items|, k);
    PageCountIsCeiling(n, k);
    assert p * k <= (pc - 1) * k by {
      assert p <= pc - 1;
    }
    if p < pc - 1 {
      assert (p + 1) * k <= (pc - 1) * k;
    }
  }

  lemma ConcatStep<T>(items: seq<T>, k: int, q: nat)
    requires k > 0 && q < PageCount(|items|, k)
    ensures items[..Min(q * k, |items|)] + PageItems(items, k, q) == items[..Min((q + 1) * k, |items|)]
  {
    PageBounds(items, k, q);
    assert (q + 1) * k == q * k + k;
  }

  /** Reading the slides of a category in order gives back its records:
      none dropped, none repeated, none moved. */
  lemma PagesConcat<T>(items: seq<T>, k: int)
    requires k > 0
    ensures Flatten(Pages(items, k)) == items
  {
    var n, pc := |items|, PageCount(|items|, k);
    var pages := Pages(items, k);
    PageCountIsCeiling(n, k);
    for q := 0 to pc
      invariant Flatten(pages[..q]) == items[..Min(q * k, n)]
    {
      FlattenPrefixStep(pages, q);
      ConcatStep(items, k, q);
    }
    assert pages[..pc] == pages;
    assert Min(pc * k, n) == n;
  }

  /** Record `i` of slide `p` is record `p*k + i` of the category, so the
      number `start_idx + i + 1` written before it (app.py:307, 310) is its
      position in the category counted from 1. */
  lemma NumberIsPosition<T>(items: seq<T>, k: int, p: nat, i: nat)
    requires k > 0 && p < PageCount(|items|, k) && i < |PageItems(items, k, p)|
    ensures p * k + i < |items|
    ensures PageItems(items, k, p)[i] == items[p * k + i]
  {
    PageBounds(items, k, p);
  }

  /** One category that fits on one slide (for instance exactly `k`
      records) gets one slide titled with the bare category name; a larger
      one gets a `(p/total)` suffix on every slide. */
  lemma TitleSuffix(category: string, n: nat, k: int, p: nat)
    requires k > 0 && n > 0 && p < PageCount(n, k)
    ensures n <= k ==> PageCount(n, k) == 1 && PageTitle(category, p, PageCount(n, k)) == category
    ensures n > k ==> (PageCount(n, k) > 1 &&
      PageTitle(category, p, PageCount(n, k)) ==
        category + " (" + NatToString(p + 1) + "/" + NatToString(PageCount(n, k)) + ")")
  {
    PageCountIsCeiling(n, k);
  }

  /** With a negative `items_per_page` Python's floor division leaves no
      slide at all, except for a single record, which gets one slide that
      shows nothing. */
  lemma NegativeItemsPerPage<T>(items: seq<T>, k: int)
    requires k < 0
    ensures PageCount(|items|, k) == (if |items| == 1 then 1 else 0)
    ensures |items| == 1 ==> PageItems(items, k, 0) == []
  {
    var n := |items|;
    if n > 0 {
      var t := FloorDiv(n + k - 1, k);
      if n == 1 {
        assert t == 1;
      } else {
        assert t < 1;
      }
    }
  }
}
