/**
 * `HelperUtil.paginate` and the page window `findAndCount({ skip, take })`
 * returns, with the `totalPages` the listings report.
 */
module Paging {
  import opened Common

  datatype Window = Window(skip: int, take: int)

  /** The page size asked for, when it is a usable positive number. */
  function PageSize(size: Option<int>): (take: int)
    ensures take >= 1
    ensures size.Some? && size.value > 0 ==> take == size.value
    ensures !(size.Some? && size.value > 0) ==> take == 50
  {
    if size.Some? && size.value != 0 && size.value > 0 then size.value else 50
  }

  /** The page number used: `page` when it is given and not negative. A
      missing, `NaN` or zero page is page 0. */
  function CurrentPage(page: Option<int>): (p: nat)
    ensures page.Some? && page.value >= 0 ==> p == page.value
    ensures !(page.Some? && page.value >= 0) ==> p == 0
  {
    if page.Some? && page.value != 0 && page.value >= 0 then page.value else 0
  }

  /** `paginate(page, size)`: `undefined` and `NaN` are both `None`. */
  function Paginate(page: Option<int>, size: Option<int>): (w: Window)
    ensures w.take >= 1 && w.skip >= 0
    ensures w.take == PageSize(size) && w.skip == CurrentPage(page) * w.take
  {
    var take := PageSize(size);
    Window(CurrentPage(page) * take, take)
  }

  /** The rows `skip`/`take` selects. */
  function Slice<T>(rows: seq<T>, w: Window): (r: seq<T>)
    requires w.skip >= 0 && w.take >= 1
    ensures |r| <= w.take
    ensures forall i :: 0 <= i < |r| ==> w.skip + i < |rows| && r[i] == rows[w.skip + i]
  {
    var lo := if w.skip < |rows| then w.skip else |rows|;
    var hi := if w.skip + w.take < |rows| then w.skip + w.take else |rows|;
    rows[lo..hi]
  }

  /** `Math.ceil(total / take)`: the number of `take`-sized pages needed
      to hold `total` rows. */
  function TotalPages(total: int, take: int): (n: nat)
    requires take >= 1
    decreases total
  {
    if total <= 0 then 0 else 1 + TotalPages(total - take, take)
  }

  /** The first page starts at the first row; negative pages are page 0. */
  lemma FirstPage(page: Option<int>, size: Option<int>)
    requires page.None? || page.value <= 0
    ensures Paginate(page, size).skip == 0
  {
  }

  /** Consecutive pages follow each other without gap or overlap. */
  lemma {:induction false} NextPageFollows<T>(rows: seq<T>, p: nat, size: Option<int>)
    ensures var w0 := Paginate(Some(p), size);
      var w1 := Paginate(Some(p + 1), size);
      w1.skip == w0.skip + w0.take &&
      Slice(rows, w0) + Slice(rows, w1) == Slice(rows, Window(w0.skip, 2 * w0.take))
  {
    var w0 := Paginate(Some(p), size);
    var w1 := Paginate(Some(p + 1), size);
    var t := PageSize(size);
    assert w0.skip == p * t && w1.skip == (p + 1) * t;
    assert (p + 1) * t == p * t + t;
  }

  /** The reported page count is exactly the number of non-empty pages:
      page `p` holds rows iff `p` is below `TotalPages`. */
  lemma {:induction false} TotalPagesExact(total: int, take: int, p: nat)
    requires take >= 1
    ensures p < TotalPages(total, take) <==> p * take < total
    decreases p
  {
    if p == 0 {
    } else if total <= 0 {
      assert p * take >= 0;
    } else {
      TotalPagesExact(total - take, take, p - 1);
      assert (p - 1) * take + take == p * take;
    }
  }
}
