/**
  Laws of the matrix product and the convolution (`runtime/snitch/kernels`, `runtime/spatz/kernels`) that
  do not say how their elements are indexed: what a transposed operand, a unit matrix, a C, a filter of
  a single tap and a bias come to.
 */
module KernelLaws {
  import opened Arith
  import opened Options
  import opened Rings
  import opened Ssr
  import opened Gemm
  import ConvSsr

  /** Row i, column k of a matrix stored row by row. */
  function Entry<E>(r: Ring<E>, x: seq<E>, columns: nat, i: nat, k: nat): E { Element(r, x)(i * columns + k) }

  /** `t` holds, row by row, the rows x columns matrix whose columns `a` holds one after another. */
  ghost predicate Transposes<E>(r: Ring<E>, t: seq<E>, a: seq<E>, rows: nat, columns: nat) {
    forall i: nat, k: nat :: i < rows && k < columns ==> Entry(r, t, columns, i, k) == Entry(r, a, rows, k, i)
  }

  /** What a product multiplies, as entries of stored matrices. */
  lemma Factors<E>(r: Ring<E>, s: Shape, a: seq<E>, b: seq<E>, i: nat, j: nat, k: nat)
    ensures Product(r, s, a, b, i, j)(k) ==
            r.mul(if s.transA then Entry(r, a, s.m, k, i) else Entry(r, a, s.n, i, k),
                  if s.transB then Entry(r, b, s.n, j, k) else Entry(r, b, s.o, k, j))
  {
    var x, y := Element(r, a)(AIndex(s, i, k)), Element(r, b)(BIndex(s, k, j));
    assert x == if s.transA then Entry(r, a, s.m, k, i) else Entry(r, a, s.n, i, k);
    assert y == if s.transB then Entry(r, b, s.n, j, k) else Entry(r, b, s.o, k, j);
    hide AIndex, BIndex, Entry;
    assert Product(r, s, a, b, i, j)(k) == r.mul(x, y);
  }

  /** A product with A transposed is the plain product of the transposed matrix. */
  lemma TransposedA<E(!new)>(r: Ring<E>, s: Shape, a: seq<E>, t: seq<E>, b: seq<E>, c: Option<seq<E>>, i: nat, j: nat)
    requires s.transA && Transposes(r, t, a, s.m, s.n) && i < s.m
    ensures Output(r, s, a, b, c, i, j) == Output(r, s.(transA := false), t, b, c, i, j)
  {
    hide Product, Entry;
    var plain := s.(transA := false);
    forall k: nat | k < s.n ensures Product(r, s, a, b, i, j)(k) == Product(r, plain, t, b, i, j)(k) {
      Factors(r, s, a, b, i, j, k);
      Factors(r, plain, t, b, i, j, k);
      assert Entry(r, t, s.n, i, k) == Entry(r, a, s.m, k, i);
    }
    SumSame(r, Product(r, s, a, b, i, j), Product(r, plain, t, b, i, j), s.n);
  }

  lemma TransposedB<E(!new)>(r: Ring<E>, s: Shape, a: seq<E>, b: seq<E>, t: seq<E>, c: Option<seq<E>>, i: nat, j: nat)
    requires s.transB && Transposes(r, t, b, s.n, s.o) && j < s.o
    ensures Output(r, s, a, b, c, i, j) == Output(r, s.(transB := false), a, t, c, i, j)
  {
    hide Product, Entry;
    var plain := s.(transB := false);
    forall k: nat | k < s.n ensures Product(r, s, a, b, i, j)(k) == Product(r, plain, a, t, i, j)(k) {
      Factors(r, s, a, b, i, j, k);
      Factors(r, plain, a, t, i, j, k);
      assert Entry(r, t, s.o, k, j) == Entry(r, b, s.n, j, k);
    }
    SumSame(r, Product(r, s, a, b, i, j), Product(r, plain, a, t, i, j), s.n);
  }

  ghost predicate IsUnit<E>(r: Ring<E>, x: seq<E>, n: nat) {
    forall i: nat, j: nat :: i < n && j < n ==> Entry(r, x, n, i, j) == if i == j then r.one else r.zero
  }

  /** A times the unit matrix is A. */
  lemma TimesUnit<E(!new)>(r: Ring<E>, s: Shape, a: seq<E>, b: seq<E>, i: nat, j: nat)
    requires Lawful(r) && !s.transA && !s.transB && s.n == s.o && IsUnit(r, b, s.n) && j < s.n
    ensures Output(r, s, a, b, None, i, j) == Entry(r, a, s.n, i, j)
  {
    hide Lawful, Product, Entry;
    var f := Product(r, s, a, b, i, j);
    forall k: nat | k < s.n ensures f(k) == if k == j then Entry(r, a, s.n, i, j) else r.zero {
      var x := Entry(r, a, s.n, i, k);
      Factors(r, s, a, b, i, j, k);
      assert Entry(r, b, s.n, k, j) == if k == j then r.one else r.zero;
      MulZero(r, x);
      Mul(r, x, x, x);
    }
    OneTerm(r, f, s.n, j);
  }

  /** The unit matrix times B is B. */
  lemma UnitTimes<E(!new)>(r: Ring<E>, s: Shape, a: seq<E>, b: seq<E>, i: nat, j: nat)
    requires Lawful(r) && !s.transA && !s.transB && s.m == s.n && IsUnit(r, a, s.n) && i < s.n
    ensures Output(r, s, a, b, None, i, j) == Entry(r, b, s.o, i, j)
  {
    hide Lawful, Product, Entry;
    var f := Product(r, s, a, b, i, j);
    forall k: nat | k < s.n ensures f(k) == if k == i then Entry(r, b, s.o, i, j) else r.zero {
      var y := Entry(r, b, s.o, k, j);
      Factors(r, s, a, b, i, j, k);
      assert Entry(r, a, s.n, i, k) == if i == k then r.one else r.zero;
      MulZero(r, y);
      Mul(r, r.zero, y, y);
      Mul(r, y, y, y);
    }
    OneTerm(r, f, s.n, i);
  }

  /** C is added, element by element. */
  lemma PlusC<E>(r: Ring<E>, s: Shape, a: seq<E>, b: seq<E>, c: seq<E>, i: nat, j: nat)
    ensures Output(r, s, a, b, Some(c), i, j) == r.add(Entry(r, c, s.o, i, j), Output(r, s, a, b, None, i, j))
  {
  }

  /* ---- Convolution ---- */

  /** Filter ff has one tap, at channel cc, row pp, column qq. */
  ghost predicate OneTap<E>(r: Ring<E>, k: ConvSsr.Conv, b: seq<E>, ff: nat, cc: nat, pp: nat, qq: nat) {
    && cc < k.c && pp < k.p && qq < k.q
    && forall t: nat :: t < k.c * k.p * k.q ==>
         Entry(r, b, k.c * k.p * k.q, ff, t) == if t == (cc * k.p + pp) * k.q + qq then r.one else r.zero
  }

  /** Such a filter picks an input: of its channel, so far down and across from where the window starts. */
  lemma PicksInput<E(!new)>(r: Ring<E>, k: ConvSsr.Conv, a: seq<E>, b: seq<E>, ff: nat, hh: nat, ww: nat, cc: nat,
                            pp: nat, qq: nat)
    requires Lawful(r) && k.p > 0 && k.q > 0 && OneTap(r, k, b, ff, cc, pp, qq)
    ensures ConvSsr.Pixel(r, k, a, b, None, ff, hh, ww) ==
            Entry(r, a, k.w, cc * k.h + (hh * k.sp + pp), ww * k.sq + qq)
  {
    hide Lawful;
    var f, t0 := ConvSsr.Tap(r, k, a, b, ff, hh, ww), (cc * k.p + pp) * k.q + qq;
    ConvSsr.WindowIsFlat(r, k, a, b, ff, hh, ww);
    TapInRange(k.c, k.p, k.q, cc, pp, qq);
    ConvSsr.TapAt(r, k, a, b, ff, hh, ww, cc, pp, qq);
    forall t: nat | t < k.Taps() ensures f(t) == if t == t0 then f(t0) else r.zero {
      TapWeight(r, k, a, b, ff, hh, ww, t);
      assert Entry(r, b, k.c * k.p * k.q, ff, t) == if t == t0 then r.one else r.zero;
      MulZero(r, TapInput(r, k, a, hh, ww, t));
    }
    OneTerm(r, f, k.Taps(), t0);
    TapWeight(r, k, a, b, ff, hh, ww, t0);
    Mul(r, TapInput(r, k, a, hh, ww, t0), r.one, r.one);
    InputPlace(r, k, a, hh, ww, cc, pp, qq);
  }

  ghost function TapInput<E>(r: Ring<E>, k: ConvSsr.Conv, a: seq<E>, hh: nat, ww: nat, t: nat): E
    requires k.p > 0 && k.q > 0
  {
    Element(r, a)(ConvSsr.InputIndex(k, hh, ww, Quo(Quo(t, k.q), k.p), Rem(Quo(t, k.q), k.p), Rem(t, k.q)))
  }

  /** Tap t multiplies an input by weight t of the filter. */
  lemma TapWeight<E>(r: Ring<E>, k: ConvSsr.Conv, a: seq<E>, b: seq<E>, ff: nat, hh: nat, ww: nat, t: nat)
    requires k.p > 0 && k.q > 0
    ensures ConvSsr.Tap(r, k, a, b, ff, hh, ww)(t) ==
            r.mul(TapInput(r, k, a, hh, ww, t), Entry(r, b, k.c * k.p * k.q, ff, t))
  {
    NextDigit(t, k.q);
    NextDigit(Quo(t, k.q), k.p);
    TapCount(Quo(Quo(t, k.q), k.p), Rem(Quo(t, k.q), k.p), Rem(t, k.q), k.p, k.q);
  }

  lemma TapCount(cc: nat, pp: nat, qq: nat, p: nat, q: nat)
    ensures cc * (p * q) + pp * q + qq == (cc * p + pp) * q + qq
  {
    MulAssoc(cc, p, q);
    Distribute(cc * p, pp, q);
  }

  lemma TapInRange(c: nat, p: nat, q: nat, cc: nat, pp: nat, qq: nat)
    requires cc < c && pp < p && qq < q
    ensures 0 <= (cc * p + pp) * q + qq < c * p * q
  {
    MulStep(cc, c, p);
    MulMono(0, cc, p);
    MulMono(0, cc * p + pp, q);
    MulStep(cc * p + pp, c * p, q);
  }

  lemma InputPlace<E>(r: Ring<E>, k: ConvSsr.Conv, a: seq<E>, hh: nat, ww: nat, cc: nat, pp: nat, qq: nat)
    requires pp < k.p && qq < k.q
    ensures TapInput(r, k, a, hh, ww, (cc * k.p + pp) * k.q + qq) ==
            Entry(r, a, k.w, cc * k.h + (hh * k.sp + pp), ww * k.sq + qq)
  {
    Digits((cc * k.p + pp) * k.q + qq, k.q, cc * k.p + pp, qq);
    Digits(cc * k.p + pp, k.p, cc, pp);
    MulAssoc(cc, k.h, k.w);
    Distribute(cc * k.h, hh * k.sp + pp, k.w);
  }

  /** A bias is its filter's, added to every pixel. */
  lemma PlusBias<E>(r: Ring<E>, k: ConvSsr.Conv, a: seq<E>, b: seq<E>, bias: seq<E>, ff: nat, hh: nat, ww: nat)
    requires ff < |bias|
    ensures ConvSsr.Pixel(r, k, a, b, Some(bias), ff, hh, ww) ==
            r.add(ConvSsr.Pixel(r, k, a, b, None, ff, hh, ww), bias[ff])
  {
  }
}
