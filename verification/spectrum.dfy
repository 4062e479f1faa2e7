/**
  What the power spectrum of the MFCC front-end (`runtime/common/kernels/mfcc_fp32.c`) is, told by its
  laws: it is the transform times its conjugate, and over all bins it adds up to the energy of the
  frame. Neither says how it is computed.
 */
module Spectrum {
  import opened Arith
  import opened Rings
  import opened Fft
  import opened Mfcc

  /* ---- Norms ---- */

  function Conjugate<E>(r: Ring<E>, z: Pair<E>): Pair<E> { Pair(z.re, r.neg(z.im)) }

  /** z times its conjugate, which is real. */
  function Norm<E>(r: Ring<E>, z: Pair<E>): E { PairMul(r, z, Conjugate(r, z)).re }

  lemma ConjugateReal<E(!new)>(r: Ring<E>, z: Pair<E>)
    requires Lawful(r)
    ensures PairMul(r, z, Conjugate(r, z)) == Pair(Norm(r, z), r.zero)
    ensures Norm(r, z) == r.add(r.mul(z.re, z.re), r.mul(z.im, z.im))
  {
    hide Lawful;
    MulNeg(r, z.re, z.im);
    MulNeg(r, z.im, z.im);
    NegNeg(r, r.mul(z.im, z.im));
    Mul(r, z.re, z.im, z.re);
    Add(r, r.mul(z.re, z.im), r.zero, r.zero);
  }

  lemma ConjugateMul<E(!new)>(r: Ring<E>, x: Pair<E>, y: Pair<E>)
    requires Lawful(r)
    ensures Conjugate(r, PairMul(r, x, y)) == PairMul(r, Conjugate(r, x), Conjugate(r, y))
  {
    hide Lawful;
    MulNeg(r, r.neg(x.im), y.im);
    MulNeg(r, y.im, x.im);
    NegNeg(r, r.mul(x.im, y.im));
    MulNeg(r, x.re, y.im);
    MulNeg(r, y.re, x.im);
    NegAdd(r, r.mul(x.re, y.im), r.mul(x.im, y.re));
  }

  /** The norm of a product is the product of the norms. */
  lemma NormMul<E(!new)>(r: Ring<E>, x: Pair<E>, y: Pair<E>)
    requires Lawful(r)
    ensures Norm(r, PairMul(r, x, y)) == r.mul(Norm(r, x), Norm(r, y))
  {
    var p, x', y' := Pairs(r), Conjugate(r, x), Conjugate(r, y);
    PairsLawful(r);
    hide Lawful, Norm, Conjugate;
    ConjugateMul(r, x, y);
    var xy := PairMul(r, x, y);
    ConjugateReal(r, xy);
    ConjugateReal(r, x);
    ConjugateReal(r, y);
    Mul(p, xy, x', y');
    Mul(p, x, y, x');
    Mul(p, y, x', x);
    Mul(p, x, x', y);
    Mul(p, p.mul(x, x'), y, y');
    RealMul(r, Norm(r, x), Norm(r, y));
  }

  lemma RealMul<E(!new)>(r: Ring<E>, a: E, b: E)
    requires Lawful(r)
    ensures PairMul(r, Pair(a, r.zero), Pair(b, r.zero)) == Pair(r.mul(a, b), r.zero)
  {
    hide Lawful;
    MulZero(r, r.zero); MulZero(r, a); MulZero(r, b);
    Mul(r, r.zero, b, b);
    NegZero(r);
    Add(r, r.mul(a, b), r.zero, r.zero);
    Add(r, r.zero, r.zero, r.zero);
  }

  lemma NegZero<E(!new)>(r: Ring<E>)
    requires Lawful(r)
    ensures r.neg(r.zero) == r.zero
  {
    Add(r, r.zero, r.zero, r.zero);
    NegUnique(r, r.zero, r.zero);
  }

  lemma {:induction false} NormPow<E(!new)>(r: Ring<E>, w: Pair<E>, n: nat)
    requires Lawful(r) && Norm(r, w) == r.one
    ensures Norm(r, Pow(Pairs(r), w, n)) == r.one
  {
    hide Norm, Lawful;
    Mul(r, r.one, r.one, r.one);
    if n == 0 {
      ConjugateReal(r, Pair(r.one, r.zero));
      MulZero(r, r.zero);
      Add(r, r.one, r.zero, r.zero);
    } else {
      NormPow(r, w, n - 1);
      NormMul(r, w, Pow(Pairs(r), w, n - 1));
    }
  }

  /** The squares of sum and difference: (a + b)^2 + (a - b)^2 == 2 a^2 + 2 b^2. */
  lemma SumAndDifference<E(!new)>(r: Ring<E>, a: E, b: E)
    requires Lawful(r)
    ensures r.add(r.mul(r.add(a, b), r.add(a, b)), r.mul(Sub(r, a, b), Sub(r, a, b))) ==
            r.add(r.add(r.mul(a, a), r.mul(b, b)), r.add(r.mul(a, a), r.mul(b, b)))
  {
    hide Lawful;
    var aa, ab, bb := r.mul(a, a), r.mul(a, b), r.mul(b, b);
    Mul(r, r.add(a, b), a, b);
    AddMul(r, a, a, b);
    AddMul(r, b, a, b);
    Mul(r, a, b, b);
    MulSub(r, Sub(r, a, b), a, b);
    MulSub(r, a, a, b);
    MulSub(r, b, a, b);
    Cancels(r, aa, ab, bb);
  }

  /** (p + q) + (q + s) + ((p - q) - (q - s)) == (p + s) + (p + s) */
  lemma Cancels<E(!new)>(r: Ring<E>, p: E, q: E, s: E)
    requires Lawful(r)
    ensures r.add(r.add(r.add(p, q), r.add(q, s)), Sub(r, Sub(r, p, q), Sub(r, q, s))) ==
            r.add(r.add(p, s), r.add(p, s))
  {
    hide Lawful;
    NegAdd(r, q, r.neg(s));
    NegNeg(r, s);
    var m := r.neg(q);
    Swap(r, p, q, q, s);
    Add(r, q, s, s);
    Swap(r, p, q, s, q);
    Swap(r, p, m, m, s);
    Add(r, m, s, s);
    Swap(r, p, m, s, m);
    Swap(r, r.add(p, s), r.add(q, q), r.add(p, s), r.add(m, m));
    Swap(r, q, q, m, m);
    Add(r, q, q, q);
    Add(r, r.zero, r.zero, r.zero);
    Add(r, r.add(r.add(p, s), r.add(p, s)), r.zero, r.zero);
  }

  /** The parallelogram law. */
  lemma Parallelogram<E(!new)>(r: Ring<E>, x: Pair<E>, y: Pair<E>)
    requires Lawful(r)
    ensures var p := Pairs(r);
            r.add(Norm(r, p.add(x, y)), Norm(r, Sub(p, x, y))) ==
            r.add(r.add(Norm(r, x), Norm(r, y)), r.add(Norm(r, x), Norm(r, y)))
  {
    var p := Pairs(r);
    var sum, diff := p.add(x, y), Sub(p, x, y);
    assert diff == Pair(Sub(r, x.re, y.re), Sub(r, x.im, y.im));
    ConjugateReal(r, sum); ConjugateReal(r, diff); ConjugateReal(r, x); ConjugateReal(r, y);
    SumAndDifference(r, x.re, y.re);
    SumAndDifference(r, x.im, y.im);
    hide Lawful, Norm;
    var a, b, c, d := r.mul(x.re, x.re), r.mul(x.im, x.im), r.mul(y.re, y.re), r.mul(y.im, y.im);
    Swap(r, r.mul(sum.re, sum.re), r.mul(sum.im, sum.im), r.mul(diff.re, diff.re), r.mul(diff.im, diff.im));
    Swap(r, a, b, c, d);
    Swap(r, r.add(a, c), r.add(a, c), r.add(b, d), r.add(b, d));
  }

  /* ---- Parseval ---- */

  /** a + ... + a, n times. */
  function Times<E>(r: Ring<E>, n: nat, a: E): E { Sum(r, (_: nat) => a, n) }

  lemma {:induction false} TimesTwice<E(!new)>(r: Ring<E>, n: nat, a: E)
    requires Lawful(r)
    ensures Times(r, 2 * n, a) == r.add(Times(r, n, a), Times(r, n, a))
  {
    SumEvenOdd(r, (_: nat) => a, n);
    SumSame(r, (i: nat) => ((_: nat) => a)(2 * i), (_: nat) => a, n);
    SumSame(r, (i: nat) => ((_: nat) => a)(2 * i + 1), (_: nat) => a, n);
  }

  lemma {:induction false} TimesAdd<E(!new)>(r: Ring<E>, n: nat, a: E, b: E)
    requires Lawful(r)
    ensures Times(r, n, r.add(a, b)) == r.add(Times(r, n, a), Times(r, n, b))
  {
    hide Lawful;
    if n == 0 {
      Add(r, r.zero, r.zero, r.zero);
    } else {
      TimesAdd(r, n - 1, a, b);
      Swap(r, Times(r, n - 1, a), Times(r, n - 1, b), a, b);
    }
  }

  lemma {:induction false} SumAdd<E(!new)>(r: Ring<E>, f: nat -> E, g: nat -> E, n: nat)
    requires Lawful(r)
    ensures Sum(r, (i: nat) => r.add(f(i), g(i)), n) == r.add(Sum(r, f, n), Sum(r, g, n))
  {
    hide Lawful;
    if n == 0 {
      Add(r, r.zero, r.zero, r.zero);
    } else {
      SumAdd(r, f, g, n - 1);
      Swap(r, Sum(r, f, n - 1), Sum(r, g, n - 1), f(n - 1), g(n - 1));
    }
  }

  /** A sum over m + n terms is that of the first m and that of the rest. */
  lemma {:induction false} SumSplit<E(!new)>(r: Ring<E>, f: nat -> E, m: nat, n: nat)
    requires Lawful(r)
    ensures Sum(r, f, m + n) == r.add(Sum(r, f, m), Sum(r, (i: nat) => f(m + i), n))
  {
    hide Lawful;
    if n == 0 {
      Add(r, Sum(r, f, m), r.zero, r.zero);
    } else {
      SumSplit(r, f, m, n - 1);
      Add(r, Sum(r, f, m), Sum(r, (i: nat) => f(m + i), n - 1), f(m + n - 1));
    }
  }

  /** The norms of all outputs of a transform, and of all its inputs. */
  function OutNorms<E>(r: Ring<E>, f: nat -> Pair<E>, off: nat, stride: nat, len: nat, w: Pair<E>): nat -> E {
    (k: nat) => Norm(r, Part(Pairs(r), f, off, stride, len, w, k))
  }

  function InNorms<E>(r: Ring<E>, f: nat -> Pair<E>, off: nat, stride: nat): nat -> E {
    (t: nat) => Norm(r, f(off + t * stride))
  }

  /** Two outputs half the length apart have, between them, twice the norms of the two half transforms. */
  lemma HalvesNorm<E(!new)>(r: Ring<E>, f: nat -> Pair<E>, off: nat, stride: nat, h: nat, w: Pair<E>, k: nat)
    requires Lawful(r) && Norm(r, w) == r.one && HalfTurn(Pairs(r), w, h)
    ensures var w2, whole := Pow(Pairs(r), w, 2), OutNorms(r, f, off, stride, 2 * h, w);
            var e, o := OutNorms(r, f, off, 2 * stride, h, w2)(k), OutNorms(r, f, off + stride, 2 * stride, h, w2)(k);
            r.add(whole(k), whole(h + k)) == r.add(r.add(e, o), r.add(e, o))
  {
    hide Lawful, Norm, Part, HalfTurn;
    var p := Pairs(r);
    PairsLawful(r);
    var w2 := Pow(p, w, 2);
    var e, o, wk := Part(p, f, off, 2 * stride, h, w2, k), Part(p, f, off + stride, 2 * stride, h, w2, k), Pow(p, w, k);
    Halves(p, f, off, stride, h, w, k);
    UpperHalf(p, f, off, stride, h, w, k);
    Parallelogram(r, e, p.mul(wk, o));
    NormMul(r, wk, o);
    NormPow(r, w, k);
    Mul(r, Norm(r, o), r.one, r.one);
    assert h + k == k + h;
  }

  lemma AllOutNorms<E(!new)>(r: Ring<E>, f: nat -> Pair<E>, off: nat, stride: nat, h: nat, w: Pair<E>)
    requires Lawful(r) && Norm(r, w) == r.one && HalfTurn(Pairs(r), w, h)
    ensures var w2 := Pow(Pairs(r), w, 2);
            var halves := r.add(Sum(r, OutNorms(r, f, off, 2 * stride, h, w2), h),
                                Sum(r, OutNorms(r, f, off + stride, 2 * stride, h, w2), h));
            Sum(r, OutNorms(r, f, off, stride, 2 * h, w), 2 * h) == r.add(halves, halves)
  {
    hide Lawful, Norm, HalfTurn, OutNorms, Sum;
    var w2, whole := Pow(Pairs(r), w, 2), OutNorms(r, f, off, stride, 2 * h, w);
    var e, o := OutNorms(r, f, off, 2 * stride, h, w2), OutNorms(r, f, off + stride, 2 * stride, h, w2);
    var eo := (k: nat) => r.add(e(k), o(k));
    var upper := (k: nat) => whole(h + k);
    SumSplit(r, whole, h, h);
    SumAdd(r, whole, upper, h);
    forall k: nat ensures r.add(whole(k), upper(k)) == r.add(eo(k), eo(k)) {
      HalvesNorm(r, f, off, stride, h, w, k);
    }
    SumSame(r, (k: nat) => r.add(whole(k), upper(k)), (k: nat) => r.add(eo(k), eo(k)), h);
    SumAdd(r, eo, eo, h);
    SumAdd(r, e, o, h);
  }

  lemma AllInNorms<E(!new)>(r: Ring<E>, f: nat -> Pair<E>, off: nat, stride: nat, h: nat)
    requires Lawful(r)
    ensures Sum(r, InNorms(r, f, off, stride), 2 * h) ==
            r.add(Sum(r, InNorms(r, f, off, 2 * stride), h), Sum(r, InNorms(r, f, off + stride, 2 * stride), h))
  {
    hide Lawful, Norm, Sum;
    var all := InNorms(r, f, off, stride);
    SumEvenOdd(r, all, h);
    forall i: nat ensures all(2 * i) == InNorms(r, f, off, 2 * stride)(i) { assert 2 * i * stride == i * (2 * stride); }
    SumSame(r, (i: nat) => all(2 * i), InNorms(r, f, off, 2 * stride), h);
    forall i: nat ensures all(2 * i + 1) == InNorms(r, f, off + stride, 2 * stride)(i) { OddIndex(i, stride); }
    SumSame(r, (i: nat) => all(2 * i + 1), InNorms(r, f, off + stride, 2 * stride), h);
  }

  /** Over a transform of 2^bits elements the norms of the outputs add up to 2^bits times those of the inputs. */
  lemma {:induction false} PartParseval<E(!new)>(r: Ring<E>, f: nat -> Pair<E>, off: nat, stride: nat, bits: nat,
                                                 w: Pair<E>)
    requires Lawful(r) && Norm(r, w) == r.one && (bits > 0 ==> HalfTurn(Pairs(r), w, Pow2(bits - 1)))
    ensures Sum(r, OutNorms(r, f, off, stride, Pow2(bits), w), Pow2(bits)) ==
            Times(r, Pow2(bits), Sum(r, InNorms(r, f, off, stride), Pow2(bits)))
    decreases bits
  {
    hide Lawful, Norm, HalfTurn, OutNorms, InNorms, Sum, Times;
    if bits == 0 {
      OneElement(r, f, off, stride, w);
    } else {
      var h, w2 := Pow2(bits - 1), Pow(Pairs(r), w, 2);
      NormPow(r, w, 2);
      if bits > 1 { NextHalfTurn(r, w, bits); }
      PartParseval(r, f, off, 2 * stride, bits - 1, w2);
      PartParseval(r, f, off + stride, 2 * stride, bits - 1, w2);
      AllOutNorms(r, f, off, stride, h, w);
      AllInNorms(r, f, off, stride, h);
      var e, o := Sum(r, InNorms(r, f, off, 2 * stride), h), Sum(r, InNorms(r, f, off + stride, 2 * stride), h);
      TimesAdd(r, h, e, o);
      TimesTwice(r, h, r.add(e, o));
    }
  }

  lemma NextHalfTurn<E(!new)>(r: Ring<E>, w: Pair<E>, bits: nat)
    requires Lawful(r) && bits > 1 && HalfTurn(Pairs(r), w, Pow2(bits - 1))
    ensures HalfTurn(Pairs(r), Pow(Pairs(r), w, 2), Pow2(bits - 2))
  {
    PairsLawful(r);
    hide Lawful;
    PowMul(Pairs(r), w, 2, Pow2(bits - 2));
  }

  lemma OneElement<E(!new)>(r: Ring<E>, f: nat -> Pair<E>, off: nat, stride: nat, w: Pair<E>)
    requires Lawful(r)
    ensures Sum(r, OutNorms(r, f, off, stride, 1, w), 1) == Times(r, 1, Sum(r, InNorms(r, f, off, stride), 1))
  {
    var p := Pairs(r);
    PairsLawful(r);
    hide Lawful, Norm, Sum, Pow;
    var outs, ins := OutNorms(r, f, off, stride, 1, w), InNorms(r, f, off, stride);
    OnePart(p, f, off, stride, w);
    SumOne(r, outs);
    SumOne(r, ins);
    SumOne(r, (_: nat) => Sum(r, ins, 1));
    assert off + 0 * stride == off;
  }

  lemma OnePart<E(!new)>(p: Ring<E>, f: nat -> E, off: nat, stride: nat, w: E)
    requires Lawful(p)
    ensures Part(p, f, off, stride, 1, w, 0) == f(off)
  {
    hide Lawful, Sum;
    SumOne(p, (t: nat) => Term(p, f, off, stride, w, 0, t));
    assert off + 0 * stride == off && 0 * 0 == 0;
    Mul(p, f(off), p.one, p.one);
  }

  lemma SumOne<E(!new)>(r: Ring<E>, f: nat -> E)
    requires Lawful(r)
    ensures Sum(r, f, 1) == f(0)
  {
    Add(r, f(0), f(0), f(0));
    hide Lawful;
    assert Sum(r, f, 0) == r.zero;
  }

  /* ---- The frame ---- */

  /** The power of a bin, as a number without imaginary part, is the transform times its conjugate. */
  lemma PowerIsNorm<E(!new)>(r: Ring<E>, x: seq<Pair<E>>, w: Pair<E>, b: nat)
    requires Lawful(r)
    ensures var z := Dft(Pairs(r), x, w, b);
            Pair(Power(r, x, w, b), r.zero) == PairMul(r, z, Conjugate(r, z))
  {
    ConjugateReal(r, Dft(Pairs(r), x, w, b));
  }

  function Sample<E>(r: Ring<E>, tb: Tables<E>, audio: seq<E>, t: nat, i: nat): E {
    r.mul(Element(r, audio)(t * tb.hop + i), Element(r, tb.window)(i))
  }

  /**
    The powers of a frame, over all bins, add up to n times the squares of its windowed samples. All that
    is asked of the root of unity is half a turn in n / 2 steps, and length one.
   */
  lemma FrameEnergy<E(!new)>(r: Ring<E>, tb: Tables<E>, audio: seq<E>, t: nat, w: Pair<E>)
    requires Lawful(r) && Valid(r, tb, w) && r.add(r.mul(w.re, w.re), r.mul(w.im, w.im)) == r.one
    ensures var x, n := FrameOf(r, tb, audio, t), tb.FftLen();
            Sum(r, (b: nat) => Power(r, x, w, b), n) ==
            Times(r, n, Sum(r, (i: nat) => r.mul(Sample(r, tb, audio, t, i), Sample(r, tb, audio, t, i)), tb.frameLen))
  {
    var x, n := FrameOf(r, tb, audio, t), tb.FftLen();
    var f, squares := Element(Pairs(r), x), (i: nat) => r.mul(Sample(r, tb, audio, t, i), Sample(r, tb, audio, t, i));
    ConjugateReal(r, w);
    PartParseval(r, f, 0, 1, tb.log, w);
    forall b: nat ensures Power(r, x, w, b) == OutNorms(r, f, 0, 1, n, w)(b) {
      ConjugateReal(r, Dft(Pairs(r), x, w, b));
    }
    hide Lawful, Power, Norm, Valid;
    SumSame(r, (b: nat) => Power(r, x, w, b), OutNorms(r, f, 0, 1, n, w), n);
    SamplesNorm(r, tb, audio, t);
  }

  lemma SamplesNorm<E(!new)>(r: Ring<E>, tb: Tables<E>, audio: seq<E>, t: nat)
    requires Lawful(r) && tb.frameLen <= tb.FftLen()
    ensures var f := Element(Pairs(r), FrameOf(r, tb, audio, t));
            Sum(r, InNorms(r, f, 0, 1), tb.FftLen()) ==
            Sum(r, (i: nat) => r.mul(Sample(r, tb, audio, t, i), Sample(r, tb, audio, t, i)), tb.frameLen)
  {
    var f := Element(Pairs(r), FrameOf(r, tb, audio, t));
    var squares := (i: nat) => r.mul(Sample(r, tb, audio, t, i), Sample(r, tb, audio, t, i));
    var l, rest := tb.frameLen, tb.FftLen() - tb.frameLen;
    var all := InNorms(r, f, 0, 1);
    forall i: nat | i < l ensures all(i) == squares(i) {
      assert f(0 + i * 1) == Pair(Sample(r, tb, audio, t, i), r.zero);
      RealNorm(r, Sample(r, tb, audio, t, i));
    }
    var later := (i: nat) => all(l + i);
    forall i: nat | i < rest ensures later(i) == r.zero {
      assert f(0 + (l + i) * 1) == Pair(r.zero, r.zero);
      RealNorm(r, r.zero);
      MulZero(r, r.zero);
    }
    hide Lawful, InNorms, Sample;
    SumSplit(r, all, l, rest);
    SumSame(r, all, squares, l);
    SumSame(r, later, (_: nat) => r.zero, rest);
    NothingTimes(r, rest);
    Add(r, Sum(r, squares, l), r.zero, r.zero);
  }

  lemma RealNorm<E(!new)>(r: Ring<E>, a: E)
    requires Lawful(r)
    ensures Norm(r, Pair(a, r.zero)) == r.mul(a, a)
  {
    ConjugateReal(r, Pair(a, r.zero));
    MulZero(r, r.zero);
    Add(r, r.mul(a, a), r.zero, r.zero);
  }

  /* ---- One bin, one band ---- */

  /** The coefficients of band m, and row c of the cosine matrix. */
  function Coefficients<E>(r: Ring<E>, tb: Tables<E>, m: nat): nat -> E
    requires m <= |tb.melLen|
  {
    (j: nat) => Element(r, tb.melCoeff)(MelOffset(tb.melLen, m) + j)
  }

  function Cosines<E>(r: Ring<E>, tb: Tables<E>, c: nat): nat -> E {
    (l: nat) => Element(r, tb.dct)(c * tb.nbMel + l)
  }

  /** The coefficients of band m pick out its i-th bin, and row c of the cosine matrix band m. */
  ghost predicate Picks<E>(r: Ring<E>, tb: Tables<E>, c: nat, m: nat, i: nat) {
    && m < tb.nbMel <= |tb.melStart| && tb.nbMel <= |tb.melLen| && i < tb.melLen[m]
    && (forall j: nat :: j < tb.melLen[m] ==> Coefficients(r, tb, m)(j) == if j == i then r.one else r.zero)
    && (forall l: nat :: l < tb.nbMel ==> Cosines(r, tb, c)(l) == if l == m then r.one else r.zero)
  }

  /** Then cepstrum c is the logarithm of that bin's power. */
  lemma PickedBin<E(!new)>(r: Ring<E>, tb: Tables<E>, x: seq<Pair<E>>, w: Pair<E>, c: nat, m: nat, i: nat)
    requires Lawful(r) && Picks(r, tb, c, m, i)
    ensures Cepstrum(r, tb, x, w, c) == tb.floorLog(Power(r, x, w, tb.melStart[m] + i))
  {
    PickedEnergy(r, tb, x, w, c, m, i);
    hide Power, MelEnergy, Lawful;
    var f := CepTerm(r, tb, x, w, c);
    forall l: nat | l < tb.nbMel && l != m ensures f(l) == r.zero {
      var e := tb.floorLog(MelEnergy(r, tb, x, w, l));
      assert Cosines(r, tb, c)(l) == r.zero;
      MulZero(r, e);
      Mul(r, r.zero, e, e);
    }
    assert Cosines(r, tb, c)(m) == r.one;
    Mul(r, tb.floorLog(MelEnergy(r, tb, x, w, m)), r.one, r.one);
    OneTerm(r, f, tb.nbMel, m);
  }

  lemma PickedEnergy<E(!new)>(r: Ring<E>, tb: Tables<E>, x: seq<Pair<E>>, w: Pair<E>, c: nat, m: nat, i: nat)
    requires Lawful(r) && Picks(r, tb, c, m, i)
    ensures MelEnergy(r, tb, x, w, m) == Power(r, x, w, tb.melStart[m] + i)
  {
    hide Power, Lawful;
    var f := MelTerm(r, tb, x, w, m);
    forall j: nat | j < tb.melLen[m] && j != i ensures f(j) == r.zero {
      assert Coefficients(r, tb, m)(j) == r.zero;
      MulZero(r, Power(r, x, w, tb.melStart[m] + j));
    }
    assert Coefficients(r, tb, m)(i) == r.one;
    Mul(r, Power(r, x, w, tb.melStart[m] + i), r.one, r.one);
    OneTerm(r, f, tb.melLen[m], i);
  }

  /** And that is what the kernels leave in the output, at its place. */
  lemma PickedFeature<E(!new)>(r: Ring<E>, tb: Tables<E>, audio: seq<E>, nbFrames: nat, w: Pair<E>, out: seq<E>,
                               was: seq<E>, t: nat, c: nat, m: nat, i: nat)
    requires Lawful(r) && HoldsFeatures(r, tb, audio, nbFrames, w, out, was)
    requires t < nbFrames && c < tb.nbCep && Picks(r, tb, c, m, i)
    ensures t * tb.nbCep + c < |out|
    ensures out[t * tb.nbCep + c] == tb.floorLog(Power(r, FrameOf(r, tb, audio, t), w, tb.melStart[m] + i))
  {
    hide Power, FrameOf, Cepstrum, Lawful, Picks;
    assert HoldsCepstrum(r, tb, audio, w, out, t, c);
    PickedBin(r, tb, FrameOf(r, tb, audio, t), w, c, m, i);
  }

  /* ---- One frame of four samples ---- */

  const QUARTER: Pair<int> := Pair(0, -1)

  const FOUR: Tables<int> :=
    Tables(4, 4, 2, [1, 1, 1, 1], [1, 0, 0, -1], [1], [1], [1], 1, [1], 1, (a: int) => a)

  /** A sine of one turn: bin 1 is -2 i, its power 4. */
  lemma FourSamples()
    ensures Picks(INTEGERS, FOUR, 0, 0, 0) && FOUR.FftLen() == 4
    ensures Dft(Pairs(INTEGERS), FrameOf(INTEGERS, FOUR, [0, 1, 0, -1], 0), QUARTER, 1) == Pair(0, -2)
    ensures Cepstrum(INTEGERS, FOUR, FrameOf(INTEGERS, FOUR, [0, 1, 0, -1], 0), QUARTER, 0) == 4
  {
    FourPicks();
    FourBin();
    IntegersLawful();
    hide Lawful, Picks, FrameOf, Dft, Cepstrum;
    PickedBin(INTEGERS, FOUR, FrameOf(INTEGERS, FOUR, [0, 1, 0, -1], 0), QUARTER, 0, 0, 0);
  }

  lemma FourPicks()
    ensures Picks(INTEGERS, FOUR, 0, 0, 0) && FOUR.FftLen() == 4
  {
    assert Pow2(2) == 4;
    assert MelOffset(FOUR.melLen, 0) == 0;
    hide Lawful;
    var one := [1];
    assert FOUR.melCoeff == one && FOUR.dct == one && FOUR.nbMel == 1 && FOUR.melLen[0] == 1;
    assert Coefficients(INTEGERS, FOUR, 0)(0) == Element(INTEGERS, one)(0) == one[0];
    assert Cosines(INTEGERS, FOUR, 0)(0) == Element(INTEGERS, one)(0);
  }

  lemma FourBin()
    ensures Dft(Pairs(INTEGERS), FrameOf(INTEGERS, FOUR, [0, 1, 0, -1], 0), QUARTER, 1) == Pair(0, -2)
  {
    assert Pow2(2) == 4;
    hide FrameOf, Pow, Sum;
    var audio := [0, 1, 0, -1];
    var p, x := Pairs(INTEGERS), FrameOf(INTEGERS, FOUR, audio, 0);
    FrameElement(INTEGERS, FOUR, audio, 0, 0);
    FrameElement(INTEGERS, FOUR, audio, 0, 1);
    FrameElement(INTEGERS, FOUR, audio, 0, 2);
    FrameElement(INTEGERS, FOUR, audio, 0, 3);
    assert x[0] == Pair(0, 0) && x[1] == Pair(1, 0) && x[2] == Pair(0, 0) && x[3] == Pair(-1, 0);
    QuarterTurns();
    FourTerms(p, (t: nat) => Term(p, Element(p, x), 0, 1, QUARTER, 1, t));
  }

  lemma FrameElement<E>(r: Ring<E>, tb: Tables<E>, audio: seq<E>, t: nat, i: nat)
    requires i < tb.frameLen <= |tb.window| && tb.frameLen <= tb.FftLen() && 0 <= t * tb.hop + i < |audio|
    ensures FrameOf(r, tb, audio, t)[i] == Pair(r.mul(audio[t * tb.hop + i], tb.window[i]), r.zero)
  {
    var q: nat := t * tb.hop + i;
    assert Element(r, audio)(q) == audio[q] && Element(r, tb.window)(i) == tb.window[i];
  }

  lemma FourTerms<E>(r: Ring<E>, f: nat -> E)
    ensures Sum(r, f, 4) == r.add(r.add(r.add(r.add(r.zero, f(0)), f(1)), f(2)), f(3))
  {
    assert Sum(r, f, 3) == r.add(Sum(r, f, 2), f(2));
    assert Sum(r, f, 2) == r.add(Sum(r, f, 1), f(1));
  }

  lemma QuarterTurns()
    ensures var p := Pairs(INTEGERS);
            && Pow(p, QUARTER, 0) == Pair(1, 0) && Pow(p, QUARTER, 1) == Pair(0, -1)
            && Pow(p, QUARTER, 2) == Pair(-1, 0) && Pow(p, QUARTER, 3) == Pair(0, 1)
  {
    var p := Pairs(INTEGERS);
    assert Pow(p, QUARTER, 1) == p.mul(QUARTER, Pow(p, QUARTER, 0));
    assert Pow(p, QUARTER, 2) == p.mul(QUARTER, Pow(p, QUARTER, 1));
    assert Pow(p, QUARTER, 3) == p.mul(QUARTER, Pow(p, QUARTER, 2));
  }
}
