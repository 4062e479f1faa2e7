/**
  Commutative rings, given by their operations, and the ring of pairs `a + b i` over one of them
  with i * i == -1. The numerical kernels are proved over any such ring: exact arithmetic, no
  rounding.

  Each law is a predicate of the elements it speaks of, so that it is used where it is asked for
  and nowhere else.
 */
module Rings {
  datatype Ring<!E> = Ring(zero: E, one: E, add: (E, E) -> E, neg: E -> E, mul: (E, E) -> E)

  function Sub<E>(r: Ring<E>, a: E, b: E): E { r.add(a, r.neg(b)) }

  const INTEGERS: Ring<int> := Ring(0, 1, (a: int, b: int) => a + b, (a: int) => -a, (a: int, b: int) => a * b)

  lemma IntegersLawful()
    ensures Lawful(INTEGERS)
  {
    forall a: int, b: int, c: int ensures MulLaws(INTEGERS, a, b, c) {
      assert a * b * c == a * (b * c) && a * (b + c) == a * b + a * c;
    }
  }

  ghost predicate AddLaws<E>(r: Ring<E>, a: E, b: E, c: E) {
    && r.add(a, b) == r.add(b, a)
    && r.add(r.add(a, b), c) == r.add(a, r.add(b, c))
    && r.add(a, r.zero) == a
    && r.add(a, r.neg(a)) == r.zero
  }

  ghost predicate MulLaws<E>(r: Ring<E>, a: E, b: E, c: E) {
    && r.mul(a, b) == r.mul(b, a)
    && r.mul(r.mul(a, b), c) == r.mul(a, r.mul(b, c))
    && r.mul(a, r.one) == a
    && r.mul(a, r.add(b, c)) == r.add(r.mul(a, b), r.mul(a, c))
  }

  ghost predicate Lawful<E(!new)>(r: Ring<E>) {
    && (forall a, b, c :: AddLaws(r, a, b, c))
    && (forall a, b, c :: MulLaws(r, a, b, c))
  }

  lemma Add<E(!new)>(r: Ring<E>, a: E, b: E, c: E)
    requires Lawful(r)
    ensures r.add(a, b) == r.add(b, a)
    ensures r.add(r.add(a, b), c) == r.add(a, r.add(b, c))
    ensures r.add(a, r.zero) == a && r.add(r.zero, a) == a
    ensures r.add(a, r.neg(a)) == r.zero && r.add(r.neg(a), a) == r.zero
  {
    assert AddLaws(r, a, b, c) && AddLaws(r, r.zero, a, a) && AddLaws(r, r.neg(a), a, a);
  }

  lemma Mul<E(!new)>(r: Ring<E>, a: E, b: E, c: E)
    requires Lawful(r)
    ensures r.mul(a, b) == r.mul(b, a)
    ensures r.mul(r.mul(a, b), c) == r.mul(a, r.mul(b, c))
    ensures r.mul(a, r.one) == a && r.mul(r.one, a) == a
    ensures r.mul(a, r.add(b, c)) == r.add(r.mul(a, b), r.mul(a, c))
  {
    assert MulLaws(r, a, b, c) && MulLaws(r, r.one, a, a);
  }

  /** (a + b) + (c + d) == (a + c) + (b + d) */
  lemma Swap<E(!new)>(r: Ring<E>, a: E, b: E, c: E, d: E)
    requires Lawful(r)
    ensures r.add(r.add(a, b), r.add(c, d)) == r.add(r.add(a, c), r.add(b, d))
  {
    Add(r, a, b, r.add(c, d));
    Add(r, b, c, d);
    Add(r, c, b, d);
    Add(r, a, c, r.add(b, d));
  }

  /** What is added to `a` to give zero is `neg(a)`. */
  lemma NegUnique<E(!new)>(r: Ring<E>, a: E, b: E)
    requires Lawful(r) && r.add(a, b) == r.zero
    ensures b == r.neg(a)
  {
    Add(r, a, a, a);
    Add(r, b, b, b);
    Add(r, r.neg(a), a, b);
  }

  lemma MulZero<E(!new)>(r: Ring<E>, a: E)
    requires Lawful(r)
    ensures r.mul(a, r.zero) == r.zero
  {
    var z := r.mul(a, r.zero);
    Add(r, r.zero, r.zero, r.zero);
    Mul(r, a, r.zero, r.zero);
    Add(r, z, z, r.neg(z));
  }

  lemma MulNeg<E(!new)>(r: Ring<E>, a: E, b: E)
    requires Lawful(r)
    ensures r.mul(a, r.neg(b)) == r.neg(r.mul(a, b))
    ensures r.mul(r.neg(b), a) == r.neg(r.mul(b, a))
  {
    Mul(r, a, b, r.neg(b));
    Add(r, b, b, b);
    MulZero(r, a);
    NegUnique(r, r.mul(a, b), r.mul(a, r.neg(b)));
    Mul(r, r.neg(b), a, a);
    Mul(r, b, a, a);
  }

  lemma NegAdd<E(!new)>(r: Ring<E>, a: E, b: E)
    requires Lawful(r)
    ensures r.neg(r.add(a, b)) == r.add(r.neg(a), r.neg(b))
  {
    Swap(r, a, b, r.neg(a), r.neg(b));
    Add(r, a, a, a);
    Add(r, b, b, b);
    Add(r, r.zero, r.zero, r.zero);
    NegUnique(r, r.add(a, b), r.add(r.neg(a), r.neg(b)));
  }

  lemma NegNeg<E(!new)>(r: Ring<E>, a: E)
    requires Lawful(r)
    ensures r.neg(r.neg(a)) == a
  {
    Add(r, a, a, a);
    NegUnique(r, r.neg(a), a);
  }

  /** a (b - c) == a b - a c, and (b - c) a == b a - c a */
  lemma MulSub<E(!new)>(r: Ring<E>, a: E, b: E, c: E)
    requires Lawful(r)
    ensures r.mul(a, Sub(r, b, c)) == Sub(r, r.mul(a, b), r.mul(a, c))
    ensures r.mul(Sub(r, b, c), a) == Sub(r, r.mul(b, a), r.mul(c, a))
  {
    Mul(r, a, b, r.neg(c));
    MulNeg(r, a, c);
    Mul(r, a, Sub(r, b, c), a);
    Mul(r, b, a, a);
    Mul(r, c, a, a);
  }

  lemma AddMul<E(!new)>(r: Ring<E>, a: E, b: E, c: E)
    requires Lawful(r)
    ensures r.mul(r.add(b, c), a) == r.add(r.mul(b, a), r.mul(c, a))
  {
    Mul(r, a, b, c);
    Mul(r, a, r.add(b, c), a);
    Mul(r, b, a, a);
    Mul(r, c, a, a);
  }

  /** (a - b) - (c + d) == (a - c) - (d + b) */
  lemma SubSwap<E(!new)>(r: Ring<E>, a: E, b: E, c: E, d: E)
    requires Lawful(r)
    ensures Sub(r, Sub(r, a, b), r.add(c, d)) == Sub(r, Sub(r, a, c), r.add(d, b))
  {
    NegAdd(r, c, d);
    NegAdd(r, d, b);
    Swap(r, a, r.neg(b), r.neg(c), r.neg(d));
    Add(r, r.neg(b), r.neg(d), r.zero);
  }

  /** (a - b) + (c + d) == (a + c) + (d - b) */
  lemma SubAddSwap<E(!new)>(r: Ring<E>, a: E, b: E, c: E, d: E)
    requires Lawful(r)
    ensures r.add(Sub(r, a, b), r.add(c, d)) == r.add(r.add(a, c), Sub(r, d, b))
  {
    Swap(r, a, r.neg(b), c, d);
    Add(r, r.neg(b), d, d);
  }

  /* ---- Pairs ---- */

  datatype Pair<E> = Pair(re: E, im: E)

  function PairMul<E>(r: Ring<E>, x: Pair<E>, y: Pair<E>): Pair<E> {
    Pair(Sub(r, r.mul(x.re, y.re), r.mul(x.im, y.im)), r.add(r.mul(x.re, y.im), r.mul(x.im, y.re)))
  }

  function Pairs<E>(r: Ring<E>): Ring<Pair<E>> {
    Ring(Pair(r.zero, r.zero), Pair(r.one, r.zero),
         (x: Pair<E>, y: Pair<E>) => Pair(r.add(x.re, y.re), r.add(x.im, y.im)),
         (x: Pair<E>) => Pair(r.neg(x.re), r.neg(x.im)),
         (x: Pair<E>, y: Pair<E>) => PairMul(r, x, y))
  }

  lemma PairAdd<E(!new)>(r: Ring<E>, x: Pair<E>, y: Pair<E>, z: Pair<E>)
    requires Lawful(r)
    ensures AddLaws(Pairs(r), x, y, z)
  {
    Add(r, x.re, y.re, z.re);
    Add(r, x.im, y.im, z.im);
  }

  lemma PairMulAssoc<E(!new)>(r: Ring<E>, x: Pair<E>, y: Pair<E>, z: Pair<E>)
    requires Lawful(r)
    ensures PairMul(r, PairMul(r, x, y), z) == PairMul(r, x, PairMul(r, y, z))
  {
    var a, b, c, d, e, f := x.re, x.im, y.re, y.im, z.re, z.im;
    Mul(r, a, c, e); Mul(r, b, d, e); Mul(r, a, d, f); Mul(r, b, c, f);
    Mul(r, a, c, f); Mul(r, b, d, f); Mul(r, a, d, e); Mul(r, b, c, e);
    MulSub(r, e, r.mul(a, c), r.mul(b, d));
    MulSub(r, f, r.mul(a, c), r.mul(b, d));
    AddMul(r, f, r.mul(a, d), r.mul(b, c));
    AddMul(r, e, r.mul(a, d), r.mul(b, c));
    MulSub(r, a, r.mul(c, e), r.mul(d, f));
    MulSub(r, b, r.mul(c, e), r.mul(d, f));
    Mul(r, b, r.mul(c, f), r.mul(d, e));
    Mul(r, a, r.mul(c, f), r.mul(d, e));
    SubSwap(r, r.mul(a, r.mul(c, e)), r.mul(b, r.mul(d, e)), r.mul(a, r.mul(d, f)), r.mul(b, r.mul(c, f)));
    SubAddSwap(r, r.mul(a, r.mul(c, f)), r.mul(b, r.mul(d, f)), r.mul(a, r.mul(d, e)), r.mul(b, r.mul(c, e)));
  }

  lemma PairMulRest<E(!new)>(r: Ring<E>, x: Pair<E>, y: Pair<E>, z: Pair<E>)
    requires Lawful(r)
    ensures PairMul(r, x, y) == PairMul(r, y, x)
    ensures PairMul(r, x, Pair(r.one, r.zero)) == x
    ensures PairMul(r, x, Pair(r.add(y.re, z.re), r.add(y.im, z.im))) ==
            Pair(r.add(PairMul(r, x, y).re, PairMul(r, x, z).re), r.add(PairMul(r, x, y).im, PairMul(r, x, z).im))
  {
    var a, b, c, d, e, f := x.re, x.im, y.re, y.im, z.re, z.im;
    Mul(r, a, c, e); Mul(r, b, d, f); Mul(r, a, d, f); Mul(r, b, c, e);
    Add(r, r.mul(a, d), r.mul(b, c), a);
    Mul(r, a, a, a); Mul(r, b, b, b);
    MulZero(r, a); MulZero(r, b);
    NegAdd(r, r.zero, r.zero);
    Add(r, r.zero, r.zero, r.zero);
    NegUnique(r, r.zero, r.zero);
    Add(r, a, a, a); Add(r, b, b, b);
    Swap(r, r.mul(a, c), r.mul(a, e), r.neg(r.mul(b, d)), r.neg(r.mul(b, f)));
    NegAdd(r, r.mul(b, d), r.mul(b, f));
    Swap(r, r.mul(a, d), r.mul(a, f), r.mul(b, c), r.mul(b, e));
  }

  /** The pairs over a commutative ring form a commutative ring. */
  lemma PairsLawful<E(!new)>(r: Ring<E>)
    requires Lawful(r)
    ensures Lawful(Pairs(r))
  {
    var p := Pairs(r);
    forall x, y, z ensures AddLaws(p, x, y, z) { PairAdd(r, x, y, z); }
    forall x, y, z ensures MulLaws(p, x, y, z) {
      PairMulAssoc(r, x, y, z);
      PairMulRest(r, x, y, z);
    }
  }

  /* ---- Powers and sums ---- */

  function Pow<E>(r: Ring<E>, w: E, n: nat): E {
    if n == 0 then r.one else r.mul(w, Pow(r, w, n - 1))
  }

  lemma {:induction false} PowAdd<E(!new)>(r: Ring<E>, w: E, m: nat, n: nat)
    requires Lawful(r)
    ensures Pow(r, w, m + n) == r.mul(Pow(r, w, m), Pow(r, w, n))
  {
    if m == 0 {
      Mul(r, Pow(r, w, n), w, w);
    } else {
      PowAdd(r, w, m - 1, n);
      Mul(r, w, Pow(r, w, m - 1), Pow(r, w, n));
    }
  }

  lemma {:induction false} PowMul<E(!new)>(r: Ring<E>, w: E, m: nat, n: nat)
    requires Lawful(r)
    ensures Pow(r, Pow(r, w, m), n) == Pow(r, w, m * n)
  {
    if n > 0 {
      PowMul(r, w, m, n - 1);
      assert m * n == m + m * (n - 1);
      PowAdd(r, w, m, m * (n - 1));
    }
  }

  /** f(0) + ... + f(n - 1), added up from the left. */
  function Sum<E>(r: Ring<E>, f: nat -> E, n: nat): E {
    if n == 0 then r.zero else r.add(Sum(r, f, n - 1), f(n - 1))
  }

  lemma {:induction false} SumSame<E(!new)>(r: Ring<E>, f: nat -> E, g: nat -> E, n: nat)
    requires forall i: nat :: i < n ==> f(i) == g(i)
    ensures Sum(r, f, n) == Sum(r, g, n)
  {
    if n > 0 { SumSame(r, f, g, n - 1); }
  }

  lemma {:induction false} SumScale<E(!new)>(r: Ring<E>, c: E, f: nat -> E, n: nat)
    requires Lawful(r)
    ensures Sum(r, (i: nat) => r.mul(c, f(i)), n) == r.mul(c, Sum(r, f, n))
  {
    if n == 0 {
      MulZero(r, c);
    } else {
      SumScale(r, c, f, n - 1);
      Mul(r, c, Sum(r, f, n - 1), f(n - 1));
    }
  }

  lemma {:induction false} NothingTimes<E(!new)>(r: Ring<E>, n: nat)
    requires Lawful(r)
    ensures Sum(r, (_: nat) => r.zero, n) == r.zero
  {
    if n > 0 {
      NothingTimes(r, n - 1);
      Add(r, r.zero, r.zero, r.zero);
    }
  }

  /** A sum with one term that is not zero. */
  lemma {:induction false} OneTerm<E(!new)>(r: Ring<E>, f: nat -> E, n: nat, i: nat)
    requires Lawful(r) && i < n && forall j: nat :: j < n && j != i ==> f(j) == r.zero
    ensures Sum(r, f, n) == f(i)
  {
    Add(r, f(i), r.zero, r.zero);
    if i < n - 1 {
      OneTerm(r, f, n - 1, i);
    } else {
      SumSame(r, f, (_: nat) => r.zero, n - 1);
      NothingTimes(r, n - 1);
    }
  }

  /** A sum over 2n terms is the sum of its even terms and of its odd ones. */
  lemma {:induction false} SumEvenOdd<E(!new)>(r: Ring<E>, f: nat -> E, n: nat)
    requires Lawful(r)
    ensures Sum(r, f, 2 * n) == r.add(Sum(r, (i: nat) => f(2 * i), n), Sum(r, (i: nat) => f(2 * i + 1), n))
  {
    if n == 0 {
      Add(r, r.zero, r.zero, r.zero);
    } else {
      hide Lawful;
      SumEvenOdd(r, f, n - 1);
      var e, o := Sum(r, (i: nat) => f(2 * i), n - 1), Sum(r, (i: nat) => f(2 * i + 1), n - 1);
      var x, y := f(2 * n - 2), f(2 * n - 1);
      assert Sum(r, f, 2 * n) == r.add(r.add(r.add(e, o), x), y);
      Add(r, r.add(e, o), x, y);
      Swap(r, e, o, x, y);
    }
  }

  /** The elements of a sequence as a function, zero past its end. */
  function Element<E>(r: Ring<E>, x: seq<E>): nat -> E { (t: nat) => if t < |x| then x[t] else r.zero }

  /** An accumulator that started at s, after n terms. */
  function Fold<E>(r: Ring<E>, s: E, f: nat -> E, n: nat): E {
    if n == 0 then s else r.add(Fold(r, s, f, n - 1), f(n - 1))
  }

  lemma {:induction false} FoldIsSum<E(!new)>(r: Ring<E>, s: E, f: nat -> E, n: nat)
    requires Lawful(r)
    ensures Fold(r, s, f, n) == r.add(s, Sum(r, f, n))
  {
    if n == 0 {
      Add(r, s, s, s);
    } else {
      FoldIsSum(r, s, f, n - 1);
      Add(r, s, Sum(r, f, n - 1), f(n - 1));
    }
  }

  /** Going on with an accumulator. */
  lemma {:induction false} FoldOn<E(!new)>(r: Ring<E>, s: E, f: nat -> E, m: nat, n: nat)
    ensures Fold(r, Fold(r, s, f, m), (i: nat) => f(m + i), n) == Fold(r, s, f, m + n)
  {
    if n > 0 { FoldOn(r, s, f, m, n - 1); }
  }

  lemma {:induction false} FoldSame<E(!new)>(r: Ring<E>, s: E, f: nat -> E, g: nat -> E, n: nat)
    requires forall i: nat :: i < n ==> f(i) == g(i)
    ensures Fold(r, s, f, n) == Fold(r, s, g, n)
  {
    if n > 0 { FoldSame(r, s, f, g, n - 1); }
  }

  lemma {:induction false} SumIsFold<E>(r: Ring<E>, f: nat -> E, n: nat)
    ensures Sum(r, f, n) == Fold(r, r.zero, f, n)
  {
    if n > 0 { SumIsFold(r, f, n - 1); }
  }

  /** A sum in rows of n is the sum over all. */
  lemma SumRows<E(!new)>(r: Ring<E>, f: nat -> E, m: nat, n: nat)
    requires Lawful(r)
    ensures Sum(r, (i: nat) => Sum(r, (j: nat) => f(i * n + j), n), m) == Sum(r, f, m * n)
  {
    hide Lawful, Sum;
    var starts, rows := (i: nat) => i * n, (i: nat) => Sum(r, (j: nat) => f(i * n + j), n);
    forall i: nat ensures RowAt(r, f, starts, rows, n, i) {
      assert (i + 1) * n == i * n + n;
      SumSame(r, (j: nat) => f(i * n + j), From(f, starts(i)), n);
    }
    RowByRow(r, f, starts, rows, m, n);
  }

  /** A function from `start` on. */
  function From<E>(f: nat -> E, start: nat): nat -> E { (j: nat) => f(start + j) }

  /** Row i begins at `starts(i)`, is n long, and `rows(i)` is its sum. */
  ghost predicate RowAt<E>(r: Ring<E>, f: nat -> E, starts: nat -> nat, rows: nat -> E, n: nat, i: nat) {
    starts(i) + n == starts(i + 1) && rows(i) == Sum(r, From(f, starts(i)), n)
  }

  lemma {:induction false} RowByRow<E(!new)>(r: Ring<E>, f: nat -> E, starts: nat -> nat, rows: nat -> E, m: nat,
                                             n: nat)
    requires Lawful(r) && starts(0) == 0 && forall i: nat :: RowAt(r, f, starts, rows, n, i)
    ensures Sum(r, rows, m) == Sum(r, f, starts(m))
  {
    hide Lawful, From;
    if m > 0 {
      RowByRow(r, f, starts, rows, m - 1, n);
      assert RowAt(r, f, starts, rows, n, m - 1);
      RowAfter(r, f, starts(m - 1), n);
    }
  }

  /** A sum with one more row of n terms. */
  lemma RowAfter<E(!new)>(r: Ring<E>, f: nat -> E, k: nat, n: nat)
    requires Lawful(r)
    ensures Sum(r, f, k + n) == r.add(Sum(r, f, k), Sum(r, From(f, k), n))
  {
    hide Lawful;
    SumIsFold(r, f, k);
    SumIsFold(r, f, k + n);
    FoldOn(r, r.zero, f, k, n);
    FoldIsSum(r, Sum(r, f, k), (j: nat) => f(k + j), n);
    SumSame(r, From(f, k), (j: nat) => f(k + j), n);
  }
}
