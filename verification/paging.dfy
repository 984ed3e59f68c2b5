/**
  Pagination of an ordered query result: `.offset((page - 1) * page_size)
  .limit(page_size)` with 1-based pages.
 */
module Paging {
  import opened Ordering

  /** The number of rows a page skips. */
  function Offset(page: int, pageSize: nat): (k: nat)
    requires page >= 1
    ensures k == (page - 1) * pageSize
  {
    MulNonNegative(page - 1, pageSize);
    (page - 1) * pageSize
  }

  lemma MulNonNegative(a: nat, b: nat)
    ensures a * b >= 0
  {
  }

  /** SQL `OFFSET off LIMIT limit` over an ordered result. */
  function Slice<T>(xs: seq<T>, off: nat, limit: nat): (r: seq<T>)
    ensures |r| <= limit
    ensures off + limit <= |xs| ==> |r| == limit
    ensures off < |xs| ==> |r| == Min(limit, |xs| - off)
    ensures |xs| <= off ==> r == []
    ensures forall i :: 0 <= i < |r| ==> off + i < |xs| && r[i] == xs[off + i]
  {
    if |xs| <= off then []
    else if |xs| <= off + limit then xs[off..]
    else xs[off..off + limit]
  }

  /** The page `page` of `xs`: at most `pageSize` consecutive elements starting at its offset. */
  function Page<T>(xs: seq<T>, page: int, pageSize: nat): (r: seq<T>)
    requires page >= 1
    ensures |r| <= pageSize
    ensures Offset(page, pageSize) + pageSize <= |xs| ==> |r| == pageSize
    ensures Offset(page, pageSize) < |xs| ==> |r| == Min(pageSize, |xs| - Offset(page, pageSize))
    ensures |xs| <= Offset(page, pageSize) ==> r == []
    ensures forall i :: 0 <= i < |r| ==> Offset(page, pageSize) + i < |xs| && r[i] == xs[Offset(page, pageSize) + i]
  {
    Slice(xs, Offset(page, pageSize), pageSize)
  }

  /** Element `i` of the list sits on page `i / pageSize + 1`, at position `i % pageSize`. */
  lemma PageOfIndex<T>(xs: seq<T>, pageSize: nat, i: nat)
    requires pageSize > 0 && i < |xs|
    ensures var p := i / pageSize + 1;
      Offset(p, pageSize) + i % pageSize == i &&
      i % pageSize < |Page(xs, p, pageSize)| &&
      Page(xs, p, pageSize)[i % pageSize] == xs[i]
  {
    var p := i / pageSize + 1;
    assert Offset(p, pageSize) == (i / pageSize) * pageSize;
  }

  /** The concatenation of pages 1..n. */
  function FirstPages<T>(xs: seq<T>, pageSize: nat, n: nat): seq<T> {
    if n == 0 then [] else FirstPages(xs, pageSize, n - 1) + Page(xs, n, pageSize)
  }

  function Min(a: int, b: int): int {
    if a <= b then a else b
  }

  lemma MulSucc(n: nat, k: nat)
    requires n > 0
    ensures n * k == (n - 1) * k + k
  {
  }

  /** Appending the slice at `off` to the prefix before `off` extends the prefix by the slice. */
  lemma SliceExtendsPrefix<T>(xs: seq<T>, off: nat, limit: nat)
    ensures xs[..Min(off, |xs|)] + Slice(xs, off, limit) == xs[..Min(off + limit, |xs|)]
  {
    if |xs| <= off {
    } else if |xs| <= off + limit {
      assert xs[..off] + xs[off..] == xs;
    } else {
      assert xs[..off] + xs[off..off + limit] == xs[..off + limit];
    }
  }

  /** Reading pages 1..n in turn yields the list's prefix: nothing skipped, nothing repeated. */
  lemma {:induction false} FirstPagesArePrefix<T>(xs: seq<T>, pageSize: nat, n: nat)
    ensures n * pageSize >= 0
    ensures FirstPages(xs, pageSize, n) == xs[..Min(n * pageSize, |xs|)]
  {
    MulNonNegative(n, pageSize);
    if n > 0 {
      FirstPagesArePrefix(xs, pageSize, n - 1);
      MulSucc(n, pageSize);
      SliceExtendsPrefix(xs, Offset(n, pageSize), pageSize);
    }
  }

  lemma MulMonotone(a: nat, b: nat, c: nat)
    requires a <= b
    ensures a * c <= b * c
  {
  }

  /** Non-overlapping slices of a duplicate-free list share no element. */
  lemma SlicesDisjoint<T>(xs: seq<T>, off1: nat, off2: nat, limit: nat)
    requires Distinct(xs)
    requires off1 + limit <= off2
    ensures forall x :: x in Slice(xs, off1, limit) ==> x !in Slice(xs, off2, limit)
  {
    var a := Slice(xs, off1, limit);
    var b := Slice(xs, off2, limit);
    forall x | x in a
      ensures x !in b
    {
      var i :| 0 <= i < |a| && a[i] == x;
      forall j | 0 <= j < |b|
        ensures b[j] != x
      {
        assert off1 + i < off2 + j;
      }
    }
  }

  /** Two different pages of a duplicate-free list share no element. */
  lemma PagesDisjoint<T>(xs: seq<T>, pageSize: nat, p: int, q: int)
    requires Distinct(xs)
    requires 1 <= p < q
    ensures forall x :: x in Page(xs, p, pageSize) ==> x !in Page(xs, q, pageSize)
  {
    MulMonotone(p, q - 1, pageSize);
    MulSucc(p, pageSize);
    SlicesDisjoint(xs, Offset(p, pageSize), Offset(q, pageSize), pageSize);
  }
}
