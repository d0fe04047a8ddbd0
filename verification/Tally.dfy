/** Weighted sums over table rows, and how they move when a table changes. */
module Tally {
  function SumBy<T>(rows: seq<T>, weight: T -> int): int {
    if rows == [] then 0 else SumBy(rows[..|rows| - 1], weight) + weight(rows[|rows| - 1])
  }

  lemma SumAppend<T>(rows: seq<T>, row: T, weight: T -> int)
    ensures SumBy(rows + [row], weight) == SumBy(rows, weight) + weight(row)
  {
    assert (rows + [row])[..|rows|] == rows;
  }

  lemma {:induction false} SumUpdate<T>(rows: seq<T>, i: nat, row: T, weight: T -> int)
    requires i < |rows|
    ensures SumBy(rows[i := row], weight) == SumBy(rows, weight) - weight(rows[i]) + weight(row)
  {
    var last := |rows| - 1;
    if i == last {
      assert rows[i := row][..last] == rows[..last];
    } else {
      assert rows[i := row][..last] == rows[..last][i := row];
      SumUpdate(rows[..last], i, row, weight);
    }
  }

  /** When every row's weight splits in two, so does the sum; the second part may be read off the old rows. */
  lemma {:induction false} SumSplit<S, T>(rows: seq<S>, rows': seq<T>, whole: S -> int, part: T -> int, rest: S -> int)
    requires |rows| == |rows'|
    requires forall i :: 0 <= i < |rows| ==> whole(rows[i]) == part(rows'[i]) + rest(rows[i])
    ensures SumBy(rows, whole) == SumBy(rows', part) + SumBy(rows, rest)
  {
    if |rows| > 0 {
      var last := |rows| - 1;
      SumSplit(rows[..last], rows'[..last], whole, part, rest);
    }
  }

  lemma {:induction false} SumSame<S, T>(rows: seq<S>, rows': seq<T>, weight: S -> int, weight': T -> int)
    requires |rows| == |rows'|
    requires forall i :: 0 <= i < |rows| ==> weight(rows[i]) == weight'(rows'[i])
    ensures SumBy(rows, weight) == SumBy(rows', weight')
  {
    if |rows| > 0 {
      var last := |rows| - 1;
      SumSame(rows[..last], rows'[..last], weight, weight');
    }
  }

  /** A sum of non-negative weights bounds each of them; so it is zero only when all are. */
  lemma {:induction false} SumBounds<T>(rows: seq<T>, weight: T -> int)
    requires forall i :: 0 <= i < |rows| ==> weight(rows[i]) >= 0
    ensures SumBy(rows, weight) >= 0
    ensures forall i :: 0 <= i < |rows| ==> weight(rows[i]) <= SumBy(rows, weight)
  {
    if |rows| > 0 {
      var last := |rows| - 1;
      SumBounds(rows[..last], weight);
      forall i | 0 <= i < |rows|
        ensures weight(rows[i]) <= SumBy(rows, weight)
      {
        if i < last {
          assert rows[..last][i] == rows[i];
        }
      }
    }
  }

  lemma {:induction false} SumZero<T>(rows: seq<T>, weight: T -> int)
    requires forall i :: 0 <= i < |rows| ==> weight(rows[i]) == 0
    ensures SumBy(rows, weight) == 0
  {
    if |rows| > 0 {
      SumZero(rows[..|rows| - 1], weight);
    }
  }
}
