/**
  `ORDER BY created`: a stable insertion sort of row ids on their `created`
  column. Rows with equal `created` keep their relative order; the source leaves
  that order to the database engine.
 */
module Ordering {
  import opened Notifications

  predicate AllValid(rows: seq<Row>, ids: seq<nat>) {
    forall i :: 0 <= i < |ids| ==> ids[i] < |rows|
  }

  predicate Distinct<T(==)>(ids: seq<T>) {
    forall i, j :: 0 <= i < j < |ids| ==> ids[i] != ids[j]
  }

  /** A duplicate-free sequence has as many elements as its set of elements. */
  lemma {:induction false} DistinctCardinality<T>(xs: seq<T>)
    requires Distinct(xs)
    ensures |set x | x in xs| == |xs|
  {
    if xs != [] {
      var rest := xs[1..];
      assert Distinct(rest) by {
        forall i, j | 0 <= i < j < |rest| ensures rest[i] != rest[j] {
          assert rest[i] == xs[i + 1] && rest[j] == xs[j + 1];
        }
      }
      DistinctCardinality(rest);
      assert xs[0] !in rest;
      assert (set x | x in xs) == {xs[0]} + (set x | x in rest);
    }
  }

  predicate SortedByCreated(rows: seq<Row>, ids: seq<nat>)
    requires AllValid(rows, ids)
  {
    forall i, j :: 0 <= i < j < |ids| ==> rows[ids[i]].created <= rows[ids[j]].created
  }

  /** Inserts `x` in front of the first id whose row was created no earlier. */
  function Insert(rows: seq<Row>, x: nat, ys: seq<nat>): (r: seq<nat>)
    requires x < |rows| && AllValid(rows, ys)
    ensures AllValid(rows, r)
    ensures |r| == |ys| + 1
    ensures multiset(r) == multiset(ys) + multiset{x}
    ensures forall z :: z in r <==> z == x || z in ys
  {
    if ys == [] then [x]
    else if rows[x].created <= rows[ys[0]].created then [x] + ys
    else
      assert ys == [ys[0]] + ys[1..];
      [ys[0]] + Insert(rows, x, ys[1..])
  }

  /** Every id in `ys` belongs to a row created no earlier than `b`. */
  predicate CreatedFrom(rows: seq<Row>, b: Timestamp, ys: seq<nat>)
    requires AllValid(rows, ys)
  {
    forall i :: 0 <= i < |ys| ==> b <= rows[ys[i]].created
  }

  lemma ConsCreatedFrom(rows: seq<Row>, b: Timestamp, y: nat, rest: seq<nat>)
    requires y < |rows| && AllValid(rows, rest)
    requires b <= rows[y].created && CreatedFrom(rows, b, rest)
    ensures AllValid(rows, [y] + rest) && CreatedFrom(rows, b, [y] + rest)
  {
    var r := [y] + rest;
    forall i | 0 <= i < |r| ensures r[i] < |rows| && b <= rows[r[i]].created {
      if i > 0 {
        assert r[i] == rest[i - 1];
      }
    }
  }

  lemma {:induction false} InsertCreatedFrom(rows: seq<Row>, x: nat, ys: seq<nat>, b: Timestamp)
    requires x < |rows| && AllValid(rows, ys)
    requires CreatedFrom(rows, b, ys) && b <= rows[x].created
    ensures CreatedFrom(rows, b, Insert(rows, x, ys))
  {
    if ys == [] {
    } else if rows[x].created <= rows[ys[0]].created {
      ConsCreatedFrom(rows, b, x, ys);
    } else {
      var tail := ys[1..];
      assert CreatedFrom(rows, b, tail) by {
        forall i | 0 <= i < |tail| ensures b <= rows[tail[i]].created {
          assert tail[i] == ys[i + 1];
        }
      }
      InsertCreatedFrom(rows, x, tail, b);
      ConsCreatedFrom(rows, b, ys[0], Insert(rows, x, tail));
    }
  }

  /** A sorted sequence headed by `y` whose tail starts no earlier than `y` is sorted. */
  lemma ConsSorted(rows: seq<Row>, y: nat, rest: seq<nat>)
    requires y < |rows| && AllValid(rows, rest)
    requires SortedByCreated(rows, rest) && CreatedFrom(rows, rows[y].created, rest)
    ensures AllValid(rows, [y] + rest)
    ensures SortedByCreated(rows, [y] + rest)
  {
    var r := [y] + rest;
    forall i, j | 0 <= i < j < |r|
      ensures rows[r[i]].created <= rows[r[j]].created
    {
      assert r[j] == rest[j - 1];
      if i > 0 {
        assert r[i] == rest[i - 1];
      }
    }
  }

  lemma {:induction false} InsertSorted(rows: seq<Row>, x: nat, ys: seq<nat>)
    requires x < |rows| && AllValid(rows, ys)
    requires SortedByCreated(rows, ys)
    ensures SortedByCreated(rows, Insert(rows, x, ys))
  {
    if ys == [] {
    } else if rows[x].created <= rows[ys[0]].created {
      assert CreatedFrom(rows, rows[x].created, ys);
      ConsSorted(rows, x, ys);
    } else {
      var tail := ys[1..];
      assert SortedByCreated(rows, tail) by {
        forall i, j | 0 <= i < j < |tail|
          ensures rows[tail[i]].created <= rows[tail[j]].created
        {
          assert tail[i] == ys[i + 1] && tail[j] == ys[j + 1];
        }
      }
      assert CreatedFrom(rows, rows[ys[0]].created, tail) by {
        forall i | 0 <= i < |tail| ensures rows[ys[0]].created <= rows[tail[i]].created {
          assert tail[i] == ys[i + 1];
        }
      }
      InsertSorted(rows, x, tail);
      InsertCreatedFrom(rows, x, tail, rows[ys[0]].created);
      ConsSorted(rows, ys[0], Insert(rows, x, tail));
    }
  }

  lemma {:induction false} InsertDistinct(rows: seq<Row>, x: nat, ys: seq<nat>)
    requires x < |rows| && AllValid(rows, ys)
    requires Distinct(ys) && x !in ys
    ensures Distinct(Insert(rows, x, ys))
  {
    if ys != [] && rows[ys[0]].created < rows[x].created {
      assert ys == [ys[0]] + ys[1..];
      InsertDistinct(rows, x, ys[1..]);
      var rest := Insert(rows, x, ys[1..]);
      var r := Insert(rows, x, ys);
      assert r == [ys[0]] + rest;
      assert ys[0] !in rest;
      forall i, j | 0 <= i < j < |r|
        ensures r[i] != r[j]
      {
        if i == 0 {
          assert r[j] == rest[j - 1];
        } else {
          assert r[i] == rest[i - 1] && r[j] == rest[j - 1];
        }
      }
    }
  }

  /** The ids of `ids` ordered by their rows' `created` timestamps. */
  function SortByCreated(rows: seq<Row>, ids: seq<nat>): (r: seq<nat>)
    requires AllValid(rows, ids)
    ensures AllValid(rows, r)
    ensures |r| == |ids|
    ensures multiset(r) == multiset(ids)
    ensures forall z :: z in r <==> z in ids
  {
    if ids == [] then []
    else
      assert ids == [ids[0]] + ids[1..];
      Insert(rows, ids[0], SortByCreated(rows, ids[1..]))
  }

  /** The sort orders by `created` and, on distinct input, yields no duplicate. */
  lemma {:induction false} SortByCreatedCorrect(rows: seq<Row>, ids: seq<nat>)
    requires AllValid(rows, ids)
    ensures SortedByCreated(rows, SortByCreated(rows, ids))
    ensures Distinct(ids) ==> Distinct(SortByCreated(rows, ids))
  {
    if ids != [] {
      assert ids == [ids[0]] + ids[1..];
      SortByCreatedCorrect(rows, ids[1..]);
      InsertSorted(rows, ids[0], SortByCreated(rows, ids[1..]));
      if Distinct(ids) {
        assert ids[0] !in ids[1..];
        assert Distinct(ids[1..]) by {
          forall i, j | 0 <= i < j < |ids[1..]| ensures ids[1..][i] != ids[1..][j] {
            assert ids[1..][i] == ids[i + 1] && ids[1..][j] == ids[j + 1];
          }
        }
        InsertDistinct(rows, ids[0], SortByCreated(rows, ids[1..]));
      }
    }
  }
}
