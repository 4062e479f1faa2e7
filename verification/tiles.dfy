/**
  Results that kernels write piece by piece into a flat array: element after element, or tile by
  tile of an m x o matrix. `out` says what the finished array is to hold.
 */
module Tiles {
  import opened Arith

  /** The first `pos` of `n` elements are in place; nothing behind them has changed. */
  ghost predicate Filled<E>(n: nat, out: nat -> E, was: seq<E>, y: seq<E>, pos: nat) {
    && |y| == |was| && pos <= n <= |y|
    && (forall q: nat :: q < pos ==> y[q] == out(q))
    && y[n..] == was[n..]
  }

  lemma FillOne<E>(n: nat, out: nat -> E, was: seq<E>, y: seq<E>, pos: nat)
    requires Filled(n, out, was, y, pos) && pos < n
    ensures pos < |y| && Filled(n, out, was, y[pos := out(pos)], pos + 1)
  {
  }

  lemma AllFilled<E>(n: nat, out: nat -> E, was: seq<E>, y: seq<E>)
    requires Filled(n, out, was, y, n)
    ensures n <= |y| == |was| && y[n..] == was[n..] && forall q: nat :: q < n ==> y[q] == out(q)
  {
  }

  /** Rows above i, columns below j of the `rows` rows from i on, and of the first `rr` of them `vl` columns more. */
  ghost predicate Written(o: nat, q: nat, i: nat, rows: nat, j: nat, rr: nat, vl: nat)
    requires o > 0
  {
    var row, col := q / o, q % o;
    row < i || (row < i + rows && col < j) || (row < i + rr && col < j + vl)
  }

  /** Those elements hold the result, the others what they held. */
  ghost predicate Covers<E>(m: nat, o: nat, out: nat -> E, was: seq<E>, y: seq<E>, i: nat, rows: nat, j: nat, rr: nat,
                            vl: nat) {
    && o > 0 && |y| == |was| && m * o <= |y|
    && forall q: nat :: q < |y| ==> y[q] == if q < m * o && Written(o, q, i, rows, j, rr, vl) then out(q) else was[q]
  }

  /** The cells of a row segment, by position. */
  lemma Segment(o: nat, row: nat, j: nat, vl: nat, q: nat)
    requires o > 0 && j + vl <= o
    ensures row * o + j <= q < row * o + j + vl <==> q / o == row && j <= q % o < j + vl
  {
    if row * o + j <= q < row * o + j + vl { Digits(q, o, row, q - row * o); }
  }

  /** Writing the segment of row i + rr. */
  lemma CoverRow<E>(m: nat, o: nat, out: nat -> E, was: seq<E>, y: seq<E>, y': seq<E>, i: nat, rows: nat, j: nat,
                    rr: nat, vec: seq<E>)
    requires Covers(m, o, out, was, y, i, rows, j, rr, |vec|) && rr < rows && i + rr < m && j + |vec| <= o
    requires forall l: nat :: l < |vec| ==> vec[l] == out((i + rr) * o + j + l)
    requires (i + rr) * o + j + |vec| <= |y| == |y'|
    requires forall q: nat :: q < |y| ==>
               y'[q] == if (i + rr) * o + j <= q < (i + rr) * o + j + |vec| then vec[q - ((i + rr) * o + j)] else y[q]
    ensures Covers(m, o, out, was, y', i, rows, j, rr + 1, |vec|)
  {
    var p := (i + rr) * o + j;
    MulStep(i + rr, m, o);
    forall q: nat | q < |y|
      ensures y'[q] == if q < m * o && Written(o, q, i, rows, j, rr + 1, |vec|) then out(q) else was[q]
    {
      Segment(o, i + rr, j, |vec|, q);
      if p <= q < p + |vec| { assert vec[q - p] == out((i + rr) * o + j + (q - p)); }
    }
  }

  /** A finished strip makes the columns below it finished ... */
  lemma StripDone<E>(m: nat, o: nat, out: nat -> E, was: seq<E>, y: seq<E>, i: nat, rows: nat, j: nat, vl: nat,
                     next: nat)
    requires Covers(m, o, out, was, y, i, rows, j, rows, vl) && next == j + vl
    ensures Covers(m, o, out, was, y, i, rows, next, 0, 0)
  {
  }

  lemma RowBelow(m: nat, o: nat, q: nat)
    requires q < m * o
    ensures o > 0 && 0 <= q / o < m && q % o < o
  {
    DivNonNegative(q, o);
    if q / o >= m { MulMono(m, q / o, o); }
  }

  /** ... a finished block of rows the rows above the next ... */
  lemma RowsDone<E>(m: nat, o: nat, out: nat -> E, was: seq<E>, y: seq<E>, i: nat, rows: nat, next: nat)
    requires Covers(m, o, out, was, y, i, rows, o, 0, 0) && (next == i + rows || (m <= i + rows && m <= next))
    ensures Covers(m, o, out, was, y, next, 0, 0, 0, 0)
  {
    forall q: nat | q < m * o ensures 0 <= q / o < m && q % o < o { RowBelow(m, o, q); }
  }

  /** ... and where nothing has been done yet, the size of what comes does not matter. */
  lemma NothingYet<E>(m: nat, o: nat, out: nat -> E, was: seq<E>, y: seq<E>, i: nat, rows: nat, j: nat, rows': nat,
                      vl: nat)
    requires Covers(m, o, out, was, y, i, rows, j, 0, 0) && (j == 0 || rows == rows')
    ensures Covers(m, o, out, was, y, i, rows', j, 0, vl)
  {
  }

  lemma NothingWritten<E>(m: nat, o: nat, out: nat -> E, y: seq<E>)
    requires o > 0 && m * o <= |y|
    ensures Covers(m, o, out, y, y, 0, 0, 0, 0, 0)
  {
    forall q: nat | q < m * o ensures 0 <= q / o { RowBelow(m, o, q); }
  }

  lemma AllCovered<E>(m: nat, o: nat, out: nat -> E, was: seq<E>, y: seq<E>, i: nat)
    requires Covers(m, o, out, was, y, i, 0, 0, 0, 0) && m <= i
    ensures m * o <= |y| == |was| && y[m * o..] == was[m * o..] && forall q: nat :: q < m * o ==> y[q] == out(q)
  {
    forall q: nat | q < m * o ensures 0 <= q / o < m { RowBelow(m, o, q); }
  }

  /** Stores a vector from position p on. */
  method StoreVector<E>(y: array<E>, p: nat, vec: seq<E>)
    requires p + |vec| <= y.Length
    modifies y
    ensures forall q: nat :: q < y.Length ==> y[..][q] == if p <= q < p + |vec| then vec[q - p] else old(y[..])[q]
  {
    var l := 0;
    while l < |vec|
      invariant l <= |vec|
      invariant forall q: nat :: q < y.Length ==> y[q] == if p <= q < p + l then vec[q - p] else old(y[..])[q]
    {
      y[p + l] := vec[l];
      l := l + 1;
    }
  }
}
