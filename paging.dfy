/** The page slice that the discussion and course listings compute:
    `from = Math.min(page * size, n)`, `to = Math.min(from + size, n)`, `list.subList(from, to)`,
    all in Java `int` arithmetic. */
module Paging {
  import opened Common
  import opened Arith

  /** One page of a listing and the number of entries on all pages together. */
  datatype PageResponse<T> = PageResponse(content: seq<T>, totalElements: int)

  /** The bounds `(from, to)` of the slice, or `None` when `subList` throws
      (a negative `from`, or `from > to`), which the controller turns into an error response. */
  function PageBounds(page: Int32, size: Int32, n: nat): (r: Option<(int, int)>)
    requires n <= INT_MAX
    ensures r.Some? ==> 0 <= r.value.0 <= r.value.1 <= n
  {
    var from := Min(Wrap32(page * size), n);
    var to := Min(Wrap32(from + size), n);
    if 0 <= from <= to then Some((from, to)) else None
  }

  /** The elements of page `page` of `all`, or `None` when `subList` throws. */
  function PageOf<T>(all: seq<T>, page: Int32, size: Int32): Option<seq<T>>
    requires |all| <= INT_MAX
  {
    match PageBounds(page, size, |all|)
    case Some((from, to)) => Some(all[from..to])
    case None => None
  }

  /** Without overflow and with non-negative arguments the slice always exists: it starts at
      `min(page * size, n)`, holds at most `size` elements, holds exactly the remaining ones when
      fewer than `size` remain, and is empty for a page past the end. */
  lemma PageInRange<T>(all: seq<T>, page: Int32, size: Int32)
    requires |all| <= INT_MAX
    requires 0 <= page && 0 <= size && page * size + size <= INT_MAX
    ensures PageOf(all, page, size).Some?
    ensures var from := Min(page * size, |all|);
            PageOf(all, page, size).value == all[from..Min(from + size, |all|)]
    ensures |PageOf(all, page, size).value| <= size
    ensures page * size >= |all| ==> PageOf(all, page, size).value == []
  {
    assert 0 <= page * size by {
      MulMonotone(page, 0, size);
    }
  }

  /** With overflow a page far past the end wraps to the first page: with 65536 elements per page,
      page 65536 starts at `65536 * 65536`, which is 0 in 32-bit arithmetic. */
  lemma PageOverflowWrapsToStart<T>(all: seq<T>)
    requires 0 < |all| <= 65536
    ensures PageOf(all, 65536, 65536) == Some(all)
  {
    assert Wrap32(65536 * 65536) == 0;
    assert Wrap32(0 + 65536) == 65536;
    assert PageBounds(65536, 65536, |all|) == Some((0, |all|));
    assert all[0..|all|] == all;
  }

  /** A negative size makes `subList` throw for a non-empty list on page 0. */
  lemma NegativeSizeThrows<T>(all: seq<T>, size: Int32)
    requires 0 < |all| <= INT_MAX && size < 0
    ensures PageOf(all, 0, size) == None
  {
  }

  /** The answer of a paged listing of `all` with the total `total`: page `page` and the total,
      or an error (500) when `subList` throws. */
  function PagedResponse<T>(all: seq<T>, page: Int32, size: Int32, total: int): (r: Response<PageResponse<T>>)
    requires |all| <= INT_MAX
    ensures PageOf(all, page, size).None? ==> r == Response(500, None)
    ensures PageOf(all, page, size).Some? ==>
              r == Response(200, Some(PageResponse(PageOf(all, page, size).value, total)))
  {
    match PageOf(all, page, size)
    case None => Response(500, None)
    case Some(slice) => Response(200, Some(PageResponse(slice, total)))
  }

  /** `r` answers page `page` of `all` with the total `total`: a success whose content is the
      slice of `all` starting at `page * size` (clamped to the list), at most `size` elements
      long and empty for a page past the end. */
  ghost predicate IsPage<T>(r: Response<PageResponse<T>>, all: seq<T>, page: int, size: int, total: int)
    requires 0 <= size
  {
    var from := Clamp(0, |all|, page * size);
    && r.code == 200 && r.body.Some? && r.body.value.totalElements == total
    && r.body.value.content == all[from..Min(from + size, |all|)]
    && |r.body.value.content| <= size
    && (page * size >= |all| ==> r.body.value.content == [])
  }

  /** Without overflow the answer is a page of at most `size` elements taken in order from
      `all`, empty past the end. */
  lemma PagedResponseInRange<T>(all: seq<T>, page: Int32, size: Int32, total: int)
    requires |all| <= INT_MAX
    requires 0 <= page && 0 <= size && page * size + size <= INT_MAX
    ensures IsPage(PagedResponse(all, page, size, total), all, page, size, total)
  {
    MulMonotone(page, 0, size);
    PageInRange(all, page, size);
    var slice := PageOf(all, page, size).value;
    assert PagedResponse(all, page, size, total) == Response(200, Some(PageResponse(slice, total)));
    assert Clamp(0, |all|, page * size) == Min(page * size, |all|);
  }
}
