/**
  Matrix products on Snitch (`runtime/snitch/kernels/gemm_fp32_ssr.c`, `gemm_ssr`). The two
  streams are armed once, before the first row, and keep their position across blocks, rows and
  the scalar columns in between. Proved to compute A B (+ C) for all four transpose choices.
 */
module Gemm {
  import opened Arith
  import opened Options
  import opened Rings

  /** Y[m][o] = A[m][n] B[n][o]; a transposed operand is stored column by column. */
  datatype Shape = Shape(m: nat, n: nat, o: nat, transA: bool, transB: bool)

  function AIndex(s: Shape, i: nat, k: nat): nat { if s.transA then k * s.m + i else i * s.n + k }

  function BIndex(s: Shape, k: nat, j: nat): nat { if s.transB then j * s.n + k else k * s.o + j }

  /** The operands are there in full. */
  ghost predicate Operands<E>(s: Shape, a: seq<E>, b: seq<E>, c: Option<seq<E>>) {
    s.m * s.n <= |a| && s.n * s.o <= |b| && (c.Some? ==> s.m * s.o <= |c.value|)
  }

  function Product<E>(r: Ring<E>, s: Shape, a: seq<E>, b: seq<E>, i: nat, j: nat): nat -> E {
    (k: nat) => r.mul(Element(r, a)(AIndex(s, i, k)), Element(r, b)(BIndex(s, k, j)))
  }

  /** One element of the result: the sum over k of A[i][k] B[k][j], and C[i][j] if there is a C. */
  function Output<E>(r: Ring<E>, s: Shape, a: seq<E>, b: seq<E>, c: Option<seq<E>>, i: nat, j: nat): E {
    var sum := Sum(r, Product(r, s, a, b, i, j), s.n);
    if c.Some? then r.add(Element(r, c.value)(i * s.o + j), sum) else sum
  }

  /** What an accumulator starts from. */
  function Start<E>(r: Ring<E>, s: Shape, c: Option<seq<E>>, i: nat, j: nat): E {
    if c.Some? then Element(r, c.value)(i * s.o + j) else r.zero
  }

  lemma FoldIsOutput<E(!new)>(r: Ring<E>, s: Shape, a: seq<E>, b: seq<E>, c: Option<seq<E>>, i: nat, j: nat)
    requires Lawful(r)
    ensures Fold(r, Start(r, s, c, i, j), Product(r, s, a, b, i, j), s.n) == Output(r, s, a, b, c, i, j)
  {
    var sum := Sum(r, Product(r, s, a, b, i, j), s.n);
    FoldIsSum(r, Start(r, s, c, i, j), Product(r, s, a, b, i, j), s.n);
    Add(r, sum, sum, sum);
  }

  lemma ProductAt<E>(r: Ring<E>, s: Shape, a: seq<E>, b: seq<E>, i: nat, j: nat, k: nat)
    requires AIndex(s, i, k) < |a| && BIndex(s, k, j) < |b|
    ensures Product(r, s, a, b, i, j)(k) == r.mul(a[AIndex(s, i, k)], b[BIndex(s, k, j)])
  {
    hide AIndex, BIndex;
    var x, y := Element(r, a)(AIndex(s, i, k)), Element(r, b)(BIndex(s, k, j));
    assert Product(r, s, a, b, i, j)(k) == r.mul(x, y);
  }

  lemma IndexBounds(s: Shape, i: nat, k: nat, j: nat)
    requires i < s.m && k < s.n && j < s.o
    ensures AIndex(s, i, k) < s.m * s.n && BIndex(s, k, j) < s.n * s.o && i * s.o + j < s.m * s.o
  {
    MulStep(k, s.n, s.m); MulStep(i, s.m, s.n);
    MulStep(j, s.o, s.n); MulStep(k, s.n, s.o);
    MulStep(i, s.m, s.o);
  }

  /** The flat result, row after row. */
  function Flat<E>(r: Ring<E>, s: Shape, a: seq<E>, b: seq<E>, c: Option<seq<E>>): nat -> E {
    (q: nat) => if s.o == 0 then r.zero else (DivNonNegative(q, s.o); Output(r, s, a, b, c, q / s.o, q % s.o))
  }

  lemma FlatAt<E>(r: Ring<E>, s: Shape, a: seq<E>, b: seq<E>, c: Option<seq<E>>, i: nat, j: nat)
    requires j < s.o
    ensures Flat(r, s, a, b, c)(i * s.o + j) == Output(r, s, a, b, c, i, j)
  {
    Digits(i * s.o + j, s.o, i, j);
  }

  ghost predicate HoldsAt<E>(r: Ring<E>, s: Shape, a: seq<E>, b: seq<E>, c: Option<seq<E>>, y: seq<E>, i: nat, j: nat) {
    i * s.o + j < |y| && y[i * s.o + j] == Output(r, s, a, b, c, i, j)
  }

  /** The array holds A B (+ C), row after row, and behind it what it held before. */
  ghost predicate HoldsProduct<E>(r: Ring<E>, s: Shape, a: seq<E>, b: seq<E>, c: Option<seq<E>>, y: seq<E>,
                                  was: seq<E>) {
    && |y| == |was| && s.m * s.o <= |y| && y[s.m * s.o..] == was[s.m * s.o..]
    && forall i: nat, j: nat :: i < s.m && j < s.o ==> HoldsAt(r, s, a, b, c, y, i, j)
  }

  lemma AllOutputs<E>(r: Ring<E>, s: Shape, a: seq<E>, b: seq<E>, c: Option<seq<E>>, y: seq<E>, was: seq<E>)
    requires s.m * s.o <= |y| == |was| && y[s.m * s.o..] == was[s.m * s.o..]
    requires forall q: nat :: q < s.m * s.o ==> y[q] == Flat(r, s, a, b, c)(q)
    ensures HoldsProduct(r, s, a, b, c, y, was)
  {
    hide Flat, HoldsAt;
    forall i: nat, j: nat | i < s.m && j < s.o ensures HoldsAt(r, s, a, b, c, y, i, j) {
      OutputIn(r, s, a, b, c, y, i, j);
    }
  }

  lemma OutputIn<E>(r: Ring<E>, s: Shape, a: seq<E>, b: seq<E>, c: Option<seq<E>>, y: seq<E>, i: nat, j: nat)
    requires s.m * s.o <= |y| && i < s.m && j < s.o
    requires forall q: nat :: q < s.m * s.o ==> y[q] == Flat(r, s, a, b, c)(q)
    ensures HoldsAt(r, s, a, b, c, y, i, j)
  {
    hide Flat, Output;
    MulStep(i, s.m, s.o);
    FlatAt(r, s, a, b, c, i, j);
  }
}

module GemmSsr {
  import opened Arith
  import opened Options
  import opened Rings
  import opened Ssr
  import opened Frep
  import opened Gemm
  import opened Tiles

  const UNROLL: nat := 8

  /** Both operands fit in the address space; the shapes this path takes. */
  ghost predicate Streamable<E>(s: Shape, a: Source<E>, b: Source<E>, c: Option<seq<E>>) {
    && 0 < s.m && 0 < s.n && UNROLL <= s.o
    && Operands(s, a.data, b.data, c) && Placed(a) && Placed(b)
  }

  function NestA(s: Shape): seq<Level> {
    if s.transA then [Level(s.n, s.m * 4), Level(s.o / UNROLL, 0), Level(s.m, 4)]
    else [Level(s.n, 4), Level(s.o / UNROLL, 0), Level(s.m, s.n * 4)]
  }

  function NestB(s: Shape): seq<Level> {
    if s.transB then [Level(UNROLL, s.n * 4), Level(s.n, 4), Level(s.o / UNROLL, UNROLL * s.n * 4), Level(s.m, 0)]
    else [Level(UNROLL, 4), Level(s.n, s.o * 4), Level(s.o / UNROLL, UNROLL * 4), Level(s.m, 0)]
  }

  ghost function StreamA<E>(s: Shape, a: Source<E>): Stream { Stream(NestA(s), UNROLL, a.base) }

  ghost function StreamB<E>(s: Shape, b: Source<E>): Stream { Stream(NestB(s), 1, b.base) }

  /** How many elements either stream has delivered when block `blk` of row `i` begins. */
  ghost function Position(s: Shape, i: nat, blk: nat): nat { (blk + i * (s.o / UNROLL)) * s.n * UNROLL }

  lemma NestsAreLoops<E>(s: Shape, a: Source<E>, b: Source<E>, c: Option<seq<E>>)
    requires Streamable(s, a, b, c)
    ensures Loops(NestA(s)) && Loops(NestB(s)) && Positive(NestA(s)) && Positive(NestB(s)) && 0 < s.o / UNROLL <= s.o
    ensures Length(StreamA(s, a)) == Length(StreamB(s, b)) == Position(s, s.m, 0)
  {
    MulMono(1, s.m, s.n); MulMono(1, s.n, s.m); MulMono(1, s.n, s.o); MulMono(1, s.o, s.n);
    var blocks := s.o / UNROLL;
    Sizes(s);
  }

  lemma SizeOf3(nest: seq<Level>)
    requires |nest| == 3
    ensures Size(nest) == nest[0].count * (nest[1].count * nest[2].count)
  {
    assert Size(nest[1..][1..][1..]) == 1;
    assert Size(nest[1..][1..]) == nest[2].count;
    assert Size(nest[1..]) == nest[1].count * nest[2].count;
  }

  lemma Sizes(s: Shape)
    requires s.o >= UNROLL
    ensures UNROLL * Size(NestA(s)) == Size(NestB(s)) == Position(s, s.m, 0)
  {
    var n, blocks, m := s.n, s.o / UNROLL, s.m;
    SizeOf3(NestA(s));
    SizeOf3(NestB(s)[1..]);
    assert n * (blocks * m) == (0 + m * blocks) * n;
  }

  /** Where the blocks lie in the streams: one after the other, row after row, none beyond the end. */
  lemma Positions(s: Shape, i: nat, blk: nat)
    requires i < s.m && blk < s.o / UNROLL
    ensures Position(s, i, blk + 1) == Position(s, i, blk) + s.n * UNROLL <= Position(s, s.m, 0)
    ensures Position(s, i, s.o / UNROLL) == Position(s, i + 1, 0)
  {
    var blocks := s.o / UNROLL;
    MulStep(i, s.m, blocks);
    Distribute(i, 1, blocks);
    Distribute(blk + i * blocks, 1, s.n);
    MulMono(blk + i * blocks + 1, s.m * blocks, s.n);
  }

  /** Element u of step k of a block: A[i][k] from the one stream, B[k][8 blk + u] from the other. */
  lemma OffsetA(s: Shape, i: nat, blk: nat, k: nat, u: nat)
    requires 0 < s.m && 0 < s.n && i < s.m && blk < s.o / UNROLL && k < s.n && u < UNROLL
    requires Positive(NestA(s))
    ensures Offset(NestA(s), Quo(Position(s, i, blk) + k * UNROLL + u, UNROLL)) == 4 * AIndex(s, i, k)
  {
    ElementNumber(s, i, blk, k, u);
    hide Position, Offset, Quo;
    OffsetOf3(NestA(s), k, blk, i);
    MulAssoc(k, s.m, 4);
    MulAssoc(i, s.n, 4);
  }

  /** Which element of the nest a position in the stream is. */
  lemma ElementNumber(s: Shape, i: nat, blk: nat, k: nat, u: nat)
    requires u < UNROLL
    ensures var t := k + (blk + i * (s.o / UNROLL)) * s.n;
            Quo(Position(s, i, blk) + k * UNROLL + u, UNROLL) == t &&
              Quo(Position(s, i, blk) + k * UNROLL + u, 1) == u + t * UNROLL
  {
    var q := blk + i * (s.o / UNROLL);
    Distribute(q * s.n, k, UNROLL);
    Digits(Position(s, i, blk) + k * UNROLL + u, UNROLL, k + q * s.n, u);
    Digits(Position(s, i, blk) + k * UNROLL + u, 1, Position(s, i, blk) + k * UNROLL + u, 0);
  }

  lemma OffsetB(s: Shape, i: nat, blk: nat, k: nat, u: nat)
    requires 0 < s.m && 0 < s.n && i < s.m && blk < s.o / UNROLL && k < s.n && u < UNROLL
    requires Positive(NestB(s))
    ensures Offset(NestB(s), Quo(Position(s, i, blk) + k * UNROLL + u, 1)) == 4 * BIndex(s, k, blk * UNROLL + u)
  {
    ElementNumber(s, i, blk, k, u);
    hide Position, Offset, Quo;
    OffsetOf(NestB(s), u, k + (blk + i * (s.o / UNROLL)) * s.n);
    OffsetOf3(NestB(s)[1..], k, blk, i);
    StridesB(s, blk, k, u);
  }

  lemma StridesB(s: Shape, blk: nat, k: nat, u: nat)
    ensures u * (s.n * 4) + k * 4 + blk * (UNROLL * s.n * 4) == 4 * ((blk * UNROLL + u) * s.n + k)
    ensures u * 4 + k * (s.o * 4) + blk * (UNROLL * 4) == 4 * (k * s.o + (blk * UNROLL + u))
  {
    Distribute(blk * UNROLL, u, s.n);
    MulAssoc(u, s.n, 4);
    assert blk * (UNROLL * s.n * 4) == 4 * (blk * UNROLL * s.n);
    MulAssoc(k, s.o, 4);
  }

  /** What the streams feed accumulator u of a block is the products of its output. */
  lemma BlockProducts<E(!new)>(r: Ring<E>, s: Shape, a: Source<E>, b: Source<E>, c: Option<seq<E>>, i: nat, blk: nat,
                               u: nat, acc: E)
    requires Streamable(s, a, b, c) && i < s.m && blk < s.o / UNROLL && u < UNROLL
    requires Positive(NestA(s)) && Positive(NestB(s))
    ensures Fold(r, acc, Products(r, a, StreamA(s, a), b, StreamB(s, b), Position(s, i, blk), u, UNROLL), s.n) ==
            Fold(r, acc, Product(r, s, a.data, b.data, i, blk * UNROLL + u), s.n)
  {
    hide NestA, NestB, Position, Element, AIndex, BIndex, Offset, Quo, Fetch;
    var p := Products(r, a, StreamA(s, a), b, StreamB(s, b), Position(s, i, blk), u, UNROLL);
    var g := Product(r, s, a.data, b.data, i, blk * UNROLL + u);
    forall k: nat | k < s.n ensures p(k) == g(k) {
      var e := Position(s, i, blk) + k * UNROLL + u;
      ColumnInRange(s, blk, u);
      IndexBounds(s, i, k, blk * UNROLL + u);
      OffsetA(s, i, blk, k, u);
      OffsetB(s, i, blk, k, u);
      DeliversElement(r, a, StreamA(s, a), e, AIndex(s, i, k));
      DeliversElement(r, b, StreamB(s, b), e, BIndex(s, k, blk * UNROLL + u));
    }
    FoldSame(r, acc, p, g, s.n);
  }

  lemma ColumnInRange(s: Shape, blk: nat, u: nat)
    requires blk < s.o / UNROLL && u < UNROLL
    ensures blk * UNROLL + u < s.o
  {
  }

  /** After the region the accumulators of a block are its outputs. */
  lemma BlockDone<E(!new)>(r: Ring<E>, s: Shape, a: Source<E>, b: Source<E>, c: Option<seq<E>>, i: nat, blk: nat,
                           from: seq<E>, acc: seq<E>)
    requires Lawful(r) && Streamable(s, a, b, c) && i < s.m && blk < s.o / UNROLL && |from| == |acc| == UNROLL
    requires Positive(NestA(s)) && Positive(NestB(s))
    requires forall u: nat :: u < UNROLL ==> from[u] == Start(r, s, c, i, blk * UNROLL + u)
    requires forall u: nat :: u < UNROLL ==>
               acc[u] == Fold(r, from[u], Products(r, a, StreamA(s, a), b, StreamB(s, b), Position(s, i, blk), u,
                                                   UNROLL), s.n)
    ensures forall u: nat :: u < UNROLL ==> acc[u] == Output(r, s, a.data, b.data, c, i, blk * UNROLL + u)
  {
    hide NestA, NestB, Lawful, Position, Output, Product, Products, Start, Element, Streamable;
    forall u: nat | u < UNROLL ensures acc[u] == Output(r, s, a.data, b.data, c, i, blk * UNROLL + u) {
      BlockProducts(r, s, a, b, c, i, blk, u, from[u]);
      FoldIsOutput(r, s, a.data, b.data, c, i, blk * UNROLL + u);
    }
  }

  /** The accumulators of one block: from C or zero, through the region. */
  method Accumulate<E(!new)>(r: Ring<E>, s: Shape, dm0: Mover, dm1: Mover, a: Source<E>, b: Source<E>,
                             c: Option<seq<E>>,
                             i: nat, blk: nat) returns (acc: seq<E>)
    requires Lawful(r) && dm0 != dm1 && Streamable(s, a, b, c) && i < s.m && blk < s.o / UNROLL
    requires At(dm0, StreamA(s, a), Position(s, i, blk)) && At(dm1, StreamB(s, b), Position(s, i, blk))
    modifies dm0`ptr, dm0`idx, dm0`rep, dm0`live, dm1`ptr, dm1`idx, dm1`rep, dm1`live
    ensures At(dm0, StreamA(s, a), Position(s, i, blk + 1)) && At(dm1, StreamB(s, b), Position(s, i, blk + 1))
    ensures |acc| == UNROLL && forall u: nat :: u < UNROLL ==>
              acc[u] == Output(r, s, a.data, b.data, c, i, blk * UNROLL + u)
  {
    NestsAreLoops(s, a, b, c);
    Positions(s, i, blk);
    hide *;
    var from := Starts(r, s, c, i, blk * UNROLL);
    acc := Region(r, dm0, a, StreamA(s, a), dm1, b, StreamB(s, b), from, s.n, Position(s, i, blk));
    BlockDone(r, s, a, b, c, i, blk, from, acc);
  }

  function Starts<E>(r: Ring<E>, s: Shape, c: Option<seq<E>>, i: nat, j: nat): (acc: seq<E>)
    ensures |acc| == UNROLL && forall u: nat :: u < UNROLL ==> acc[u] == Start(r, s, c, i, j + u)
  {
    seq(UNROLL, u requires 0 <= u < UNROLL => Start(r, s, c, i, j + u))
  }

  /** One block of eight columns of a row. */
  method Block<E(!new)>(r: Ring<E>, s: Shape, dm0: Mover, dm1: Mover, a: Source<E>, b: Source<E>, c: Option<seq<E>>,
                        y: array<E>,
                        i: nat, blk: nat, ghost was: seq<E>)
    requires Lawful(r) && dm0 != dm1 && Streamable(s, a, b, c) && i < s.m && blk < s.o / UNROLL
    requires At(dm0, StreamA(s, a), Position(s, i, blk)) && At(dm1, StreamB(s, b), Position(s, i, blk))
    requires Filled(s.m * s.o, Flat(r, s, a.data, b.data, c), was, y[..], i * s.o + blk * UNROLL)
    modifies y, dm0`ptr, dm0`idx, dm0`rep, dm0`live, dm1`ptr, dm1`idx, dm1`rep, dm1`live
    ensures At(dm0, StreamA(s, a), Position(s, i, blk + 1)) && At(dm1, StreamB(s, b), Position(s, i, blk + 1))
    ensures Filled(s.m * s.o, Flat(r, s, a.data, b.data, c), was, y[..], i * s.o + (blk + 1) * UNROLL)
  {
    ColumnInRange(s, blk, UNROLL - 1);
    hide *;
    var acc := Accumulate(r, s, dm0, dm1, a, b, c, i, blk);
    Store(r, s, a.data, b.data, c, y, i, blk * UNROLL, acc, was);
  }

  /** The eight stores. */
  method Store<E>(r: Ring<E>, s: Shape, ghost a: seq<E>, ghost b: seq<E>, ghost c: Option<seq<E>>, y: array<E>,
                  i: nat, j: nat, acc: seq<E>, ghost was: seq<E>)
    requires i < s.m && j + |acc| <= s.o
    requires Filled(s.m * s.o, Flat(r, s, a, b, c), was, y[..], i * s.o + j)
    requires forall u: nat :: u < |acc| ==> acc[u] == Output(r, s, a, b, c, i, j + u)
    modifies y
    ensures Filled(s.m * s.o, Flat(r, s, a, b, c), was, y[..], i * s.o + j + |acc|)
  {
    hide Filled, Output, Flat;
    var u := 0;
    while u < |acc|
      invariant u <= |acc| && Filled(s.m * s.o, Flat(r, s, a, b, c), was, y[..], i * s.o + j + u)
    {
      FlatAt(r, s, a, b, c, i, j + u);
      MulStep(i, s.m, s.o);
      FillOne(s.m * s.o, Flat(r, s, a, b, c), was, y[..], i * s.o + j + u);
      y[i * s.o + j + u] := acc[u];
      u := u + 1;
    }
  }

  /** A column past the last full block, scalar. */
  method Tail<E(!new)>(r: Ring<E>, s: Shape, a: seq<E>, b: seq<E>, c: Option<seq<E>>, y: array<E>, i: nat, j: nat,
                       ghost was: seq<E>)
    requires Lawful(r) && Operands(s, a, b, c) && i < s.m && j < s.o
    requires Filled(s.m * s.o, Flat(r, s, a, b, c), was, y[..], i * s.o + j)
    modifies y
    ensures Filled(s.m * s.o, Flat(r, s, a, b, c), was, y[..], i * s.o + j + 1)
  {
    hide Filled, Product, AIndex, BIndex, Flat;
    ghost var ys := y[..];
    var sum := r.zero;
    var k := 0;
    while k < s.n
      invariant k <= s.n && sum == Sum(r, Product(r, s, a, b, i, j), k)
      modifies {}
    {
      IndexBounds(s, i, k, j);
      var aIdx, bIdx := AIndex(s, i, k), BIndex(s, k, j);
      ProductAt(r, s, a, b, i, j, k);
      sum := r.add(sum, r.mul(a[aIdx], b[bIdx]));
      k := k + 1;
    }
    assert y[..] == ys;
    FlatAt(r, s, a, b, c, i, j);
    MulStep(i, s.m, s.o);
    FillOne(s.m * s.o, Flat(r, s, a, b, c), was, ys, i * s.o + j);
    if c.Some? { Add(r, sum, c.value[i * s.o + j], sum); }
    y[i * s.o + j] := if c.Some? then r.add(sum, c.value[i * s.o + j]) else sum;
  }

  /** One row: its blocks, then its remaining columns; the streams keep their place across the latter. */
  method Row<E(!new)>(r: Ring<E>, s: Shape, dm0: Mover, dm1: Mover, a: Source<E>, b: Source<E>, c: Option<seq<E>>,
                      y: array<E>,
                      i: nat, ghost was: seq<E>)
    requires Lawful(r) && dm0 != dm1 && Streamable(s, a, b, c) && i < s.m
    requires At(dm0, StreamA(s, a), Position(s, i, 0)) && At(dm1, StreamB(s, b), Position(s, i, 0))
    requires Filled(s.m * s.o, Flat(r, s, a.data, b.data, c), was, y[..], i * s.o)
    modifies y, dm0`ptr, dm0`idx, dm0`rep, dm0`live, dm1`ptr, dm1`idx, dm1`rep, dm1`live
    ensures At(dm0, StreamA(s, a), Position(s, i + 1, 0)) && At(dm1, StreamB(s, b), Position(s, i + 1, 0))
    ensures Filled(s.m * s.o, Flat(r, s, a.data, b.data, c), was, y[..], (i + 1) * s.o)
  {
    Positions(s, i, 0);
    Distribute(i, 1, s.o);
    BlocksFit(s);
    hide *;
    Blocks(r, s, dm0, dm1, a, b, c, y, i, was);
    Tails(r, s, a.data, b.data, c, y, i, s.o / UNROLL * UNROLL, was);
  }

  lemma BlocksFit(s: Shape)
    requires UNROLL <= s.o
    ensures 0 < s.o / UNROLL && s.o / UNROLL * UNROLL <= s.o
  {
  }

  method Blocks<E(!new)>(r: Ring<E>, s: Shape, dm0: Mover, dm1: Mover, a: Source<E>, b: Source<E>, c: Option<seq<E>>,
                         y: array<E>,
                         i: nat, ghost was: seq<E>)
    requires Lawful(r) && dm0 != dm1 && Streamable(s, a, b, c) && i < s.m
    requires At(dm0, StreamA(s, a), Position(s, i, 0)) && At(dm1, StreamB(s, b), Position(s, i, 0))
    requires Filled(s.m * s.o, Flat(r, s, a.data, b.data, c), was, y[..], i * s.o)
    modifies y, dm0`ptr, dm0`idx, dm0`rep, dm0`live, dm1`ptr, dm1`idx, dm1`rep, dm1`live
    ensures At(dm0, StreamA(s, a), Position(s, i, s.o / UNROLL)) && At(dm1, StreamB(s, b), Position(s, i, s.o / UNROLL))
    ensures Filled(s.m * s.o, Flat(r, s, a.data, b.data, c), was, y[..], i * s.o + s.o / UNROLL * UNROLL)
  {
    var blocks := s.o / UNROLL;
    hide *;
    var blk := 0;
    while blk < blocks
      invariant blk <= blocks
      invariant At(dm0, StreamA(s, a), Position(s, i, blk)) && At(dm1, StreamB(s, b), Position(s, i, blk))
      invariant Filled(s.m * s.o, Flat(r, s, a.data, b.data, c), was, y[..], i * s.o + blk * UNROLL)
    {
      Block(r, s, dm0, dm1, a, b, c, y, i, blk, was);
      blk := blk + 1;
    }
  }

  method Tails<E(!new)>(r: Ring<E>, s: Shape, a: seq<E>, b: seq<E>, c: Option<seq<E>>, y: array<E>, i: nat, from: nat,
                        ghost was: seq<E>)
    requires Lawful(r) && Operands(s, a, b, c) && i < s.m && from <= s.o
    requires Filled(s.m * s.o, Flat(r, s, a, b, c), was, y[..], i * s.o + from)
    modifies y
    ensures Filled(s.m * s.o, Flat(r, s, a, b, c), was, y[..], i * s.o + s.o)
  {
    hide *;
    var j := from;
    while j < s.o
      invariant j <= s.o && Filled(s.m * s.o, Flat(r, s, a, b, c), was, y[..], i * s.o + j)
    {
      Tail(r, s, a, b, c, y, i, j, was);
      j := j + 1;
    }
  }

  /**
    Y = A B (+ C), all of it, and nothing but it. The elements of B must come once each: that is how
    the kernel finds stream 1, and leaves it.
   */
  method GemmStreamed<E(!new)>(r: Ring<E>, s: Shape, dm0: Mover, dm1: Mover, a: Source<E>, b: Source<E>,
                               c: Option<seq<E>>, y: array<E>)
    requires Lawful(r) && dm0 != dm1 && dm0.Wide() && dm1.Wide() && dm1.repeat == 0
    requires Streamable(s, a, b, c) && s.m * s.o <= y.Length
    modifies y, dm0, dm1
    ensures HoldsProduct(r, s, a.data, b.data, c, y[..], old(y[..]))
    ensures !dm0.live && !dm1.live && dm1.repeat == 0
  {
    ghost var was := y[..];
    Arm(s, dm0, dm1, a, b, c);
    assert Filled(s.m * s.o, Flat(r, s, a.data, b.data, c), was, y[..], 0);
    Rows(r, s, dm0, dm1, a, b, c, y, was);
    StreamsEnd(s, dm0, dm1, a, b, c);
    hide *;
    AllFilled(s.m * s.o, Flat(r, s, a.data, b.data, c), was, y[..]);
    AllOutputs(r, s, a.data, b.data, c, y[..], was);
  }

  /** After the last row both streams have delivered all they had. */
  lemma StreamsEnd<E>(s: Shape, dm0: Mover, dm1: Mover, a: Source<E>, b: Source<E>, c: Option<seq<E>>)
    requires Streamable(s, a, b, c)
    requires At(dm0, StreamA(s, a), Position(s, s.m, 0)) && At(dm1, StreamB(s, b), Position(s, s.m, 0))
    ensures !dm0.live && !dm1.live
  {
    NestsAreLoops(s, a, b, c);
  }

  /** Arms both streams, once. */
  method Arm<E>(s: Shape, dm0: Mover, dm1: Mover, a: Source<E>, b: Source<E>, ghost c: Option<seq<E>>)
    requires dm0 != dm1 && dm0.Wide() && dm1.Wide() && dm1.repeat == 0
    requires Streamable(s, a, b, c)
    modifies dm0, dm1
    ensures At(dm0, StreamA(s, a), Position(s, 0, 0)) && At(dm1, StreamB(s, b), Position(s, 0, 0))
  {
    NestsAreLoops(s, a, b, c);
    assert Position(s, 0, 0) == 0;
    hide NestA, NestB, Position, Reached, Streamable;
    dm0.Loop(NestA(s));
    dm0.Repeat(UNROLL);
    dm1.Loop(NestB(s));
    dm0.Read(NestA(s), a.base);
    dm1.Read(NestB(s), b.base);
  }

  method Rows<E(!new)>(r: Ring<E>, s: Shape, dm0: Mover, dm1: Mover, a: Source<E>, b: Source<E>, c: Option<seq<E>>,
                       y: array<E>,
                       ghost was: seq<E>)
    requires Lawful(r) && dm0 != dm1 && Streamable(s, a, b, c)
    requires At(dm0, StreamA(s, a), Position(s, 0, 0)) && At(dm1, StreamB(s, b), Position(s, 0, 0))
    requires Filled(s.m * s.o, Flat(r, s, a.data, b.data, c), was, y[..], 0)
    modifies y, dm0`ptr, dm0`idx, dm0`rep, dm0`live, dm1`ptr, dm1`idx, dm1`rep, dm1`live
    ensures At(dm0, StreamA(s, a), Position(s, s.m, 0)) && At(dm1, StreamB(s, b), Position(s, s.m, 0))
    ensures Filled(s.m * s.o, Flat(r, s, a.data, b.data, c), was, y[..], s.m * s.o)
  {
    hide *;
    var i := 0;
    while i < s.m
      invariant i <= s.m
      invariant At(dm0, StreamA(s, a), Position(s, i, 0)) && At(dm1, StreamB(s, b), Position(s, i, 0))
      invariant Filled(s.m * s.o, Flat(r, s, a.data, b.data, c), was, y[..], i * s.o)
    {
      Row(r, s, dm0, dm1, a, b, c, y, i, was);
      i := i + 1;
    }
  }
}
