/**
  Matrix products on Spatz (`runtime/spatz/kernels/gemm_fp32_rvv.c`, `gemm_block` and
  `gemm_rvv`): strips of columns as long as `vsetvl` grants, four rows of A to a load of B.
  Proved for every vector length the RISC-V V extension 1.0 permits (section 6.3).
 */
module GemmRvv {
  import opened Arith
  import opened Options
  import opened Rings
  import opened Gemm
  import opened Tiles

  const ROWS: nat := 4

  /** What `vsetvl` may grant for an application vector length `avl`, of at most `vlmax`. */
  predicate Granted(avl: nat, vlmax: nat, vl: nat) {
    && vl <= vlmax && vl <= avl
    && (avl <= vlmax ==> vl == avl)
    && (vlmax < avl < 2 * vlmax ==> (avl + 1) / 2 <= vl)
    && (2 * vlmax <= avl ==> vl == vlmax)
  }

  /** Any of the lengths the extension allows. */
  method SetVl(avl: nat, vlmax: nat) returns (vl: nat)
    ensures Granted(avl, vlmax, vl)
  {
    var most := Min(avl, vlmax);
    assert Granted(avl, vlmax, most);
    vl :| vl <= most && Granted(avl, vlmax, vl);
  }

  /** Accumulator of row i + rr before step k. */
  ghost predicate Accumulated<E>(r: Ring<E>, s: Shape, a: seq<E>, b: seq<E>, c: Option<seq<E>>, i: nat, j: nat, vl: nat,
                                 acc: seq<seq<E>>, k: nat) {
    forall rr: nat :: rr < |acc| ==> RowAccumulated(r, s, a, b, c, i + rr, j, vl, acc[rr], k)
  }

  ghost predicate RowAccumulated<E>(r: Ring<E>, s: Shape, a: seq<E>, b: seq<E>, c: Option<seq<E>>, row: nat, j: nat,
                                    vl: nat, vec: seq<E>, k: nat) {
    && |vec| == vl
    && forall l: nat :: l < vl ==> vec[l] == Fold(r, Start(r, s, c, row, j + l), Product(r, s, a, b, row, j + l), k)
  }

  lemma RowWidth<E>(r: Ring<E>, s: Shape, a: seq<E>, b: seq<E>, c: Option<seq<E>>, row: nat, j: nat, vl: nat,
                    vec: seq<E>, k: nat)
    requires RowAccumulated(r, s, a, b, c, row, j, vl, vec, k)
    ensures |vec| == vl
  {
  }

  /** `vfmacc.vf`: every lane takes in the scalar times its lane of the vector. */
  method MultiplyAdd<E>(r: Ring<E>, acc: seq<E>, x: E, v: seq<E>) returns (acc': seq<E>)
    requires |acc| == |v|
    ensures |acc'| == |acc| && forall l: nat :: l < |acc| ==> acc'[l] == r.add(acc[l], r.mul(x, v[l]))
  {
    acc' := seq(|acc|, l requires 0 <= l < |acc| => r.add(acc[l], r.mul(x, v[l])));
  }

  lemma StepRow<E>(r: Ring<E>, s: Shape, a: seq<E>, b: seq<E>, c: Option<seq<E>>, row: nat, j: nat, vl: nat,
                   vec: seq<E>, vec': seq<E>, k: nat)
    requires !s.transA && !s.transB && RowAccumulated(r, s, a, b, c, row, j, vl, vec, k)
    requires row * s.n + k < |a| && k * s.o + j + vl <= |b| && |vec'| == vl
    requires forall l: nat :: l < vl ==> vec'[l] == r.add(vec[l], r.mul(a[row * s.n + k], b[k * s.o + j + l]))
    ensures RowAccumulated(r, s, a, b, c, row, j, vl, vec', k + 1)
  {
    forall l: nat | l < vl ensures vec'[l] ==
      Fold(r, Start(r, s, c, row, j + l), Product(r, s, a, b, row, j + l), k + 1) {
      ProductAt(r, s, a, b, row, j + l, k);
      hide Product, Start;
    }
  }

  /** `gemm_block`: rows [i, i + rows) of Y, columns [j, j + vl). */
  method Block<E(!new)>(r: Ring<E>, s: Shape, a: seq<E>, b: seq<E>, c: Option<seq<E>>, y: array<E>,
                        i: nat, j: nat, rows: nat, vl: nat, ghost was: seq<E>)
    requires Lawful(r) && !s.transA && !s.transB && Operands(s, a, b, c)
    requires 0 < rows <= ROWS && i + rows <= s.m && j + vl <= s.o && 0 < s.o
    requires Covers(s.m, s.o, Flat(r, s, a, b, c), was, y[..], i, rows, j, 0, vl)
    modifies y
    ensures Covers(s.m, s.o, Flat(r, s, a, b, c), was, y[..], i, rows, j, rows, vl)
  {
    var acc := Loaded(r, s, c, i, j, rows, vl);
    acc := Accumulate(r, s, a, b, c, i, j, vl, acc);
    hide Covers, Lawful, Operands, Product, Start, Output, Flat;
    var rr := 0;
    while rr < rows
      invariant rr <= rows && Covers(s.m, s.o, Flat(r, s, a, b, c), was, y[..], i, rows, j, rr, vl)
    {
      RowIsOutput(r, s, a, b, c, i + rr, j, vl, acc[rr]);
      StoreRow(r, s, a, b, c, y, i, rows, j, rr, acc[rr], was);
      rr := rr + 1;
    }
  }

  /** The accumulators' starting values: the rows of C, or zero. */
  method Loaded<E>(r: Ring<E>, s: Shape, c: Option<seq<E>>, i: nat, j: nat, rows: nat, vl: nat)
    returns (acc: seq<seq<E>>)
    ensures |acc| == rows
    ensures forall rr: nat :: rr < rows ==> |acc[rr]| == vl && forall l: nat :: l < vl ==>
              acc[rr][l] == Start(r, s, c, i + rr, j + l)
  {
    acc := seq(rows, rr requires 0 <= rr < rows => seq(vl, l requires 0 <= l < vl => Start(r, s, c, i + rr, j + l)));
  }

  /** The loop over k: one load of B, one multiply-add per row. */
  method Accumulate<E>(r: Ring<E>, s: Shape, a: seq<E>, b: seq<E>, ghost c: Option<seq<E>>, i: nat, j: nat, vl: nat,
                       start: seq<seq<E>>)
    returns (acc: seq<seq<E>>)
    requires !s.transA && !s.transB && s.m * s.n <= |a| && s.n * s.o <= |b|
    requires i + |start| <= s.m && j + vl <= s.o
    requires Accumulated(r, s, a, b, c, i, j, vl, start, 0)
    ensures |acc| == |start| && Accumulated(r, s, a, b, c, i, j, vl, acc, s.n)
  {
    hide RowAccumulated;
    acc := start;
    var k, aOff, bOff := 0, i * s.n, j;
    while k < s.n
      invariant k <= s.n && aOff == i * s.n + k && bOff == k * s.o + j
      invariant |acc| == |start| && Accumulated(r, s, a, b, c, i, j, vl, acc, k)
    {
      MulStep(k, s.n, s.o);
      Distribute(k, 1, s.o);
      acc := Step(r, s, a, b, c, i, j, vl, acc, k, aOff, bOff);
      k, aOff, bOff := k + 1, aOff + 1, bOff + s.o;
    }
  }

  /** One step of k. */
  method Step<E>(r: Ring<E>, s: Shape, a: seq<E>, b: seq<E>, ghost c: Option<seq<E>>, i: nat, j: nat, vl: nat,
                 start: seq<seq<E>>,
                 ghost k: nat, aOff: nat, bOff: nat) returns (acc: seq<seq<E>>)
    requires !s.transA && !s.transB && s.m * s.n <= |a| && k < s.n && i + |start| <= s.m
    requires aOff == i * s.n + k && bOff == k * s.o + j && bOff + vl <= |b|
    requires Accumulated(r, s, a, b, c, i, j, vl, start, k)
    ensures |acc| == |start| && Accumulated(r, s, a, b, c, i, j, vl, acc, k + 1)
  {
    hide RowAccumulated;
    var bv := b[bOff..bOff + vl];
    acc := [];
    while |acc| < |start|
      invariant |acc| <= |start| && Accumulated(r, s, a, b, c, i, j, vl, acc, k + 1)
    {
      var rr := |acc|;
      assert RowAccumulated(r, s, a, b, c, i + rr, j, vl, start[rr], k);
      RowWidth(r, s, a, b, c, i + rr, j, vl, start[rr], k);
      MulStep(i + rr, s.m, s.n);
      Distribute(i, rr, s.n);
      var vec := MultiplyAdd(r, start[rr], a[aOff + rr * s.n], bv);
      StepRow(r, s, a, b, c, i + rr, j, vl, start[rr], vec, k);
      acc := acc + [vec];
    }
  }

  lemma RowIsOutput<E(!new)>(r: Ring<E>, s: Shape, a: seq<E>, b: seq<E>, c: Option<seq<E>>, row: nat, j: nat, vl: nat,
                             vec: seq<E>)
    requires Lawful(r) && RowAccumulated(r, s, a, b, c, row, j, vl, vec, s.n)
    ensures |vec| == vl && forall l: nat :: l < vl ==> vec[l] == Output(r, s, a, b, c, row, j + l)
  {
    hide Lawful, Output, Product, Start;
    forall l: nat | l < vl ensures vec[l] == Output(r, s, a, b, c, row, j + l) {
      FoldIsOutput(r, s, a, b, c, row, j + l);
    }
  }

  /** `vse32`: one vector to its place in the result. */
  method StoreRow<E>(r: Ring<E>, s: Shape, ghost a: seq<E>, ghost b: seq<E>, ghost c: Option<seq<E>>, y: array<E>,
                     i: nat, rows: nat, j: nat, rr: nat, vec: seq<E>, ghost was: seq<E>)
    requires rr < rows && i + rr < s.m && j + |vec| <= s.o
    requires Covers(s.m, s.o, Flat(r, s, a, b, c), was, y[..], i, rows, j, rr, |vec|)
    requires forall l: nat :: l < |vec| ==> vec[l] == Output(r, s, a, b, c, i + rr, j + l)
    modifies y
    ensures Covers(s.m, s.o, Flat(r, s, a, b, c), was, y[..], i, rows, j, rr + 1, |vec|)
  {
    MulStep(i + rr, s.m, s.o);
    RowIsFlat(r, s, a, b, c, i + rr, j, vec);
    assert s.m * s.o <= y.Length;
    hide *;
    ghost var y0 := y[..];
    StoreVector(y, (i + rr) * s.o + j, vec);
    CoverRow(s.m, s.o, Flat(r, s, a, b, c), was, y0, y[..], i, rows, j, rr, vec);
  }

  lemma RowIsFlat<E>(r: Ring<E>, s: Shape, a: seq<E>, b: seq<E>, c: Option<seq<E>>, row: nat, j: nat, vec: seq<E>)
    requires j + |vec| <= s.o
    requires forall l: nat :: l < |vec| ==> vec[l] == Output(r, s, a, b, c, row, j + l)
    ensures forall l: nat :: l < |vec| ==> vec[l] == Flat(r, s, a, b, c)(row * s.o + j + l)
  {
    hide Flat, Output;
    forall l: nat | l < |vec| ensures vec[l] == Flat(r, s, a, b, c)(row * s.o + j + l) {
      FlatAt(r, s, a, b, c, row, j + l);
    }
  }

  /** `gemm_rvv`: Y = A B (+ C) whatever lengths are granted, as long as a vector holds anything at all. */
  method GemmVector<E(!new)>(r: Ring<E>, s: Shape, a: seq<E>, b: seq<E>, c: Option<seq<E>>, y: array<E>, vlmax: nat)
    requires Lawful(r) && !s.transA && !s.transB && Operands(s, a, b, c) && s.m * s.o <= y.Length
    requires 0 < s.m && 0 < s.n && 0 < s.o && 0 < vlmax
    modifies y
    ensures HoldsProduct(r, s, a, b, c, y[..], old(y[..]))
  {
    ghost var was := y[..];
    NothingWritten(s.m, s.o, Flat(r, s, a, b, c), was);
    hide *;
    var i := RowBlocks(r, s, a, b, c, y, vlmax, was);
    AllCovered(s.m, s.o, Flat(r, s, a, b, c), was, y[..], i);
    AllOutputs(r, s, a, b, c, y[..], was);
  }

  method RowBlocks<E(!new)>(r: Ring<E>, s: Shape, a: seq<E>, b: seq<E>, c: Option<seq<E>>, y: array<E>, vlmax: nat,
                            ghost was: seq<E>)
    returns (i: nat)
    requires Lawful(r) && !s.transA && !s.transB && Operands(s, a, b, c) && 0 < s.o && 0 < vlmax
    requires Covers(s.m, s.o, Flat(r, s, a, b, c), was, y[..], 0, 0, 0, 0, 0)
    modifies y
    ensures s.m <= i && Covers(s.m, s.o, Flat(r, s, a, b, c), was, y[..], i, 0, 0, 0, 0)
  {
    assert ROWS == 4;
    hide *;
    i := 0;
    while i < s.m
      invariant Covers(s.m, s.o, Flat(r, s, a, b, c), was, y[..], i, 0, 0, 0, 0)
    {
      var rows := if s.m - i < ROWS then s.m - i else ROWS;
      NothingYet(s.m, s.o, Flat(r, s, a, b, c), was, y[..], i, 0, 0, rows, 0);
      RowBlock(r, s, a, b, c, y, vlmax, i, rows, was);
      RowsDone(s.m, s.o, Flat(r, s, a, b, c), was, y[..], i, rows, i + ROWS);
      i := i + ROWS;
    }
  }

  /** The strips of one block of rows. */
  method RowBlock<E(!new)>(r: Ring<E>, s: Shape, a: seq<E>, b: seq<E>, c: Option<seq<E>>, y: array<E>, vlmax: nat,
                           i: nat, rows: nat, ghost was: seq<E>)
    requires Lawful(r) && !s.transA && !s.transB && Operands(s, a, b, c) && 0 < s.o && 0 < vlmax
    requires 0 < rows <= ROWS && i + rows <= s.m
    requires Covers(s.m, s.o, Flat(r, s, a, b, c), was, y[..], i, rows, 0, 0, 0)
    modifies y
    ensures Covers(s.m, s.o, Flat(r, s, a, b, c), was, y[..], i, rows, s.o, 0, 0)
  {
    hide Covers, Lawful, Operands, Flat;
    var j := 0;
    while j < s.o
      invariant j <= s.o
      invariant Covers(s.m, s.o, Flat(r, s, a, b, c), was, y[..], i, rows, j, 0, 0)
      decreases s.o - j
    {
      var vl := SetVl(s.o - j, vlmax);
      NothingYet(s.m, s.o, Flat(r, s, a, b, c), was, y[..], i, rows, j, rows, vl);
      Block(r, s, a, b, c, y, i, j, rows, vl, was);
      StripDone(s.m, s.o, Flat(r, s, a, b, c), was, y[..], i, rows, j, vl, j + vl);
      j := j + vl;
    }
  }
}
