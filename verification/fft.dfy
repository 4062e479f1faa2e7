/**
  The in-place radix-2 transform of the MFCC front-end (`runtime/common/kernels/mfcc_fp32.c`,
  `bit_reverse` and `fft_radix2`): permute by bit reversal, then log2 n passes of butterflies
  over split real and imaginary arrays. Proved to compute the discrete Fourier transform, for
  every power-of-two length and over every commutative ring.
 */
module Fft {
  import opened Arith
  import opened Rings

  /* ---- Bit reversal ---- */

  /** The low `m` bits of `i`, read backwards. */
  function Rev(m: nat, i: nat): nat {
    if m == 0 then 0 else (if i % 2 == 1 then Pow2(m - 1) else 0) + Rev(m - 1, i / 2)
  }

  function Bit(i: nat, b: nat): nat { i / Pow2(b) % 2 }

  lemma BitShift(i: nat, b: nat)
    ensures Bit(i, b + 1) == Bit(i / 2, b) && Bit(i, 0) == i % 2
  {
    DivMod(i, 2, Pow2(b));
  }

  lemma {:induction false} RevBound(m: nat, i: nat)
    ensures Rev(m, i) < Pow2(m)
  {
    if m > 0 { RevBound(m - 1, i / 2); }
  }

  /** Reading one more bit puts the earlier ones a place higher. */
  lemma {:induction false} RevOneMore(m: nat, i: nat)
    ensures Rev(m + 1, i) == 2 * Rev(m, i) + Bit(i, m)
  {
    hide Bit;
    if m > 0 {
      RevOneMore(m - 1, i / 2);
      BitShift(i, m - 1);
    } else {
      BitShift(i, 0);
      assert Rev(1, i) == (if i % 2 == 1 then Pow2(0) else 0) + Rev(0, i / 2);
    }
  }

  /** Only the low bits matter. */
  lemma {:induction false} RevLow(m: nat, i: nat, c: nat)
    ensures Rev(m, i + c * Pow2(m)) == Rev(m, i)
  {
    if m > 0 {
      MulAssoc(c, 2, Pow2(m - 1));
      MulAssoc(c, Pow2(m - 1), 2);
      ModAdd(i, 2, c * Pow2(m - 1));
      RevLow(m - 1, i / 2, c);
    }
  }

  /** The lowest bit of i comes out on top; below it the rest, reversed. */
  lemma RevTop(m: nat, i: nat)
    requires m > 0
    ensures Bit(Rev(m, i), m - 1) == i % 2 && Rev(m - 1, Rev(m, i)) == Rev(m - 1, Rev(m - 1, i / 2))
  {
    hide Bit, Pow2;
    var low, top := Rev(m - 1, i / 2), Pow2(m - 1);
    RevBound(m - 1, i / 2);
    RevLow(m - 1, low, i % 2);
    TopBit(Rev(m, i), top, i % 2, low);
    BitAt(Rev(m, i), m - 1);
  }

  lemma BitAt(x: nat, b: nat)
    ensures Bit(x, b) == x / Pow2(b) % 2
  {
  }

  lemma TopBit(x: nat, top: nat, bit: nat, low: nat)
    requires low < top && bit < 2 && x == (if bit == 1 then top else 0) + low
    ensures x / top % 2 == bit && x == low + bit * top
  {
    Digits(x, top, bit, low);
  }

  /** Reversing twice gives the index back. */
  lemma {:induction false} RevInvolution(m: nat, i: nat)
    requires i < Pow2(m)
    ensures Rev(m, Rev(m, i)) == i
  {
    if m > 0 {
      hide Bit, Rev;
      RevTop(m, i);
      RevOneMore(m - 1, Rev(m, i));
      RevInvolution(m - 1, i / 2);
    } else {
      assert Rev(0, Rev(0, i)) == 0;
    }
  }

  method BitReverse(i: nat, bits: nat) returns (r: nat)
    ensures r == Rev(bits, i)
  {
    r := 0;
    var b := 0;
    while b < bits
      invariant b <= bits && r == Rev(b, i)
    {
      RevOneMore(b, i);
      r := 2 * r + Bit(i, b);
      b := b + 1;
    }
  }

  /* ---- The transform and its halves ---- */

  /** Output `k` of the discrete Fourier transform of x with root w: the sum of x[t] w^(t k). */
  function Dft<E>(r: Ring<E>, x: seq<E>, w: E, k: nat): E {
    Part(r, Element(r, x), 0, 1, |x|, w, k)
  }

  /** The same over the `len` elements f(off), f(off + stride), ... */
  function Part<E>(r: Ring<E>, f: nat -> E, off: nat, stride: nat, len: nat, w: E, k: nat): E {
    Sum(r, (t: nat) => Term(r, f, off, stride, w, k, t), len)
  }

  function Term<E>(r: Ring<E>, f: nat -> E, off: nat, stride: nat, w: E, k: nat, t: nat): E {
    r.mul(f(off + t * stride), Pow(r, w, t * k))
  }

  lemma EvenTerm<E(!new)>(r: Ring<E>, f: nat -> E, off: nat, stride: nat, w: E, k: nat, i: nat)
    requires Lawful(r)
    ensures Term(r, f, off, stride, w, k, 2 * i) == Term(r, f, off, 2 * stride, Pow(r, w, 2), k, i)
  {
    PowMul(r, w, 2, i * k);
    assert 2 * i * stride == i * (2 * stride);
    assert 2 * i * k == 2 * (i * k);
  }

  lemma OddIndex(i: nat, s: nat)
    ensures (2 * i + 1) * s == s + 2 * (i * s) == s + i * (2 * s)
  {
    Distribute(2 * i, 1, s);
    MulAssoc(2, i, s);
    MulAssoc(i, 2, s);
  }

  lemma OddTerm<E(!new)>(r: Ring<E>, f: nat -> E, off: nat, stride: nat, w: E, k: nat, i: nat)
    requires Lawful(r)
    ensures Term(r, f, off, stride, w, k, 2 * i + 1) ==
            r.mul(Pow(r, w, k), Term(r, f, off + stride, 2 * stride, Pow(r, w, 2), k, i))
  {
    hide Pow, Lawful;
    var x, wk, p := f(off + (2 * i + 1) * stride), Pow(r, w, k), Pow(r, Pow(r, w, 2), i * k);
    OddIndex(i, stride);
    OddIndex(i, k);
    OddPower(r, w, k, i);
    Mul(r, x, wk, p);
    Mul(r, wk, x, p);
  }

  lemma OddPower<E(!new)>(r: Ring<E>, w: E, k: nat, i: nat)
    requires Lawful(r)
    ensures Pow(r, w, k + 2 * (i * k)) == r.mul(Pow(r, w, k), Pow(r, Pow(r, w, 2), i * k))
  {
    hide Pow, Lawful;
    PowMul(r, w, 2, i * k);
    PowAdd(r, w, k, 2 * (i * k));
  }

  /** A transform of 2h elements from the transforms of the even ones and of the odd ones. */
  lemma Halves<E(!new)>(r: Ring<E>, f: nat -> E, off: nat, stride: nat, h: nat, w: E, k: nat)
    requires Lawful(r)
    ensures Part(r, f, off, stride, 2 * h, w, k) ==
            r.add(Part(r, f, off, 2 * stride, h, Pow(r, w, 2), k),
                  r.mul(Pow(r, w, k), Part(r, f, off + stride, 2 * stride, h, Pow(r, w, 2), k)))
  {
    hide Term, Pow, Lawful, Sum;
    var g := (t: nat) => Term(r, f, off, stride, w, k, t);
    var w2 := Pow(r, w, 2);
    var odd := (t: nat) => Term(r, f, off + stride, 2 * stride, w2, k, t);
    SumEvenOdd(r, g, h);
    forall i: nat ensures g(2 * i) == Term(r, f, off, 2 * stride, w2, k, i) { EvenTerm(r, f, off, stride, w, k, i); }
    SumSame(r, (i: nat) => g(2 * i), (t: nat) => Term(r, f, off, 2 * stride, w2, k, t), h);
    forall i: nat ensures g(2 * i + 1) == r.mul(Pow(r, w, k), odd(i)) { OddTerm(r, f, off, stride, w, k, i); }
    SumSame(r, (i: nat) => g(2 * i + 1), (i: nat) => r.mul(Pow(r, w, k), odd(i)), h);
    SumScale(r, Pow(r, w, k), odd, h);
  }

  ghost predicate HalfTurn<E>(r: Ring<E>, w: E, h: nat) { Pow(r, w, h) == r.neg(r.one) }

  /** With w^h == -1 the halves' transforms repeat after h outputs. */
  lemma Periodic<E(!new)>(r: Ring<E>, f: nat -> E, off: nat, stride: nat, h: nat, w: E, k: nat)
    requires Lawful(r) && HalfTurn(r, w, h)
    ensures Part(r, f, off, stride, h, Pow(r, w, 2), k + h) == Part(r, f, off, stride, h, Pow(r, w, 2), k)
  {
    var w2 := Pow(r, w, 2);
    var u := r.neg(r.one);
    PowMul(r, w, 2, h);
    PowAdd(r, w, h, h);
    MulNeg(r, u, r.one);
    Mul(r, u, u, u);
    NegNeg(r, r.one);
    assert Pow(r, w2, h) == r.one;
    forall t: nat ensures Term(r, f, off, stride, w2, k + h, t) == Term(r, f, off, stride, w2, k, t) {
      assert t * (k + h) == t * k + h * t;
      PowAdd(r, w2, t * k, h * t);
      PowMul(r, w2, h, t);
      PowOne(r, t);
      Mul(r, Pow(r, w2, t * k), u, u);
    }
    SumSame(r, (t: nat) => Term(r, f, off, stride, w2, k + h, t), (t: nat) => Term(r, f, off, stride, w2, k, t), h);
  }

  lemma {:induction false} PowOne<E(!new)>(r: Ring<E>, n: nat)
    requires Lawful(r)
    ensures Pow(r, r.one, n) == r.one
  {
    if n > 0 {
      PowOne(r, n - 1);
      Mul(r, r.one, r.one, r.one);
    }
  }

  /** The upper half of the outputs: the same two transforms, subtracted. */
  lemma UpperHalf<E(!new)>(r: Ring<E>, f: nat -> E, off: nat, stride: nat, h: nat, w: E, k: nat)
    requires Lawful(r) && HalfTurn(r, w, h)
    ensures Part(r, f, off, stride, 2 * h, w, k + h) ==
            Sub(r, Part(r, f, off, 2 * stride, h, Pow(r, w, 2), k),
                   r.mul(Pow(r, w, k), Part(r, f, off + stride, 2 * stride, h, Pow(r, w, 2), k)))
  {
    hide Part;
    var o := Part(r, f, off + stride, 2 * stride, h, Pow(r, w, 2), k);
    Halves(r, f, off, stride, h, w, k + h);
    Periodic(r, f, off, 2 * stride, h, w, k);
    Periodic(r, f, off + stride, 2 * stride, h, w, k);
    PowAdd(r, w, k, h);
    MulNeg(r, Pow(r, w, k), r.one);
    Mul(r, Pow(r, w, k), o, o);
    MulNeg(r, o, Pow(r, w, k));
  }

  /* ---- The passes ---- */

  /** What a pass with blocks of 2h leaves at index i. */
  function Crossed<E>(r: Ring<E>, z: seq<E>, h: nat, root: E, i: nat): E
    requires h > 0 && i < |z| && |z| % (2 * h) == 0
  {
    InBlock(|z|, h, i);
    var p := i % (2 * h);
    if p < h then r.add(z[i], r.mul(z[i + h], Pow(r, root, p)))
    else Sub(r, z[i - h], r.mul(z[i], Pow(r, root, p - h)))
  }

  lemma InBlock(n: nat, h: nat, i: nat)
    requires h > 0 && i < n && n % (2 * h) == 0
    ensures i - i % (2 * h) + 2 * h <= n && 0 <= i % (2 * h) < 2 * h && i % (2 * h) <= i
  {
    var q := i / (2 * h);
    DivNonNegative(i, 2 * h);
    MulMono(0, q, 2 * h);
    MultipleIs(q * (2 * h), 2 * h, q);
    MultipleGap(q * (2 * h), n, 2 * h);
  }

  /** After `s` of `bits` passes every block of 2^s holds the transform of its part of the input. */
  ghost predicate Passed<E>(r: Ring<E>, f: nat -> E, w: E, bits: nat, s: nat, z: seq<E>) {
    && s <= bits && |z| == Pow2(bits)
    && forall b: nat, k: nat :: InPass(bits, s, b, k) ==>
         var i := b * Pow2(s) + k;
         i < |z| && z[i] == Part(r, f, Rev(bits - s, b), Pow2(bits - s), Pow2(s), Pow(r, w, Pow2(bits - s)), k)
  }

  ghost predicate InPass(bits: nat, s: nat, b: nat, k: nat) { s <= bits && b < Pow2(bits - s) && k < Pow2(s) }

  lemma PassIndex(bits: nat, s: nat, b: nat, k: nat)
    requires InPass(bits, s, b, k)
    ensures b * Pow2(s) + k < Pow2(bits)
  {
    Pow2Add(bits - s, s);
    MulStep(b, Pow2(bits - s), Pow2(s));
  }

  /** The bit-reversed input is the state before the first pass. */
  lemma FirstPass<E(!new)>(r: Ring<E>, f: nat -> E, w: E, bits: nat, z: seq<E>)
    requires Lawful(r) && |z| == Pow2(bits)
    requires forall i :: 0 <= i < |z| ==> z[i] == f(Rev(bits, i))
    ensures Passed(r, f, w, bits, 0, z)
  {
    forall b: nat, k: nat | InPass(bits, 0, b, k)
      ensures b * Pow2(0) + k < |z| && z[b * Pow2(0) + k] ==
                Part(r, f, Rev(bits, b), Pow2(bits), 1, Pow(r, w, Pow2(bits)), k)
    {
      var x := f(Rev(bits, b));
      Add(r, x, x, x);
      Mul(r, x, x, x);
      assert 0 * Pow2(bits) == 0;
      assert Term(r, f, Rev(bits, b), Pow2(bits), Pow(r, w, Pow2(bits)), k, 0) == x;
      var g := (t: nat) => Term(r, f, Rev(bits, b), Pow2(bits), Pow(r, w, Pow2(bits)), k, t);
      assert Sum(r, g, 1) == r.add(Sum(r, g, 0), g(0));
    }
  }

  /** One butterfly pass doubles the blocks. */
  lemma NextPass<E(!new)>(r: Ring<E>, f: nat -> E, w: E, bits: nat, s: nat, z: seq<E>, z': seq<E>, root: E)
    requires Lawful(r) && s < bits && Passed(r, f, w, bits, s, z) && |z'| == |z| && |z| % (2 * Pow2(s)) == 0
    requires root == Pow(r, w, Pow2(bits - s - 1)) && HalfTurn(r, w, Pow2(bits - 1))
    requires forall i: nat :: i < |z| ==> z'[i] == Crossed(r, z, Pow2(s), root, i)
    ensures Passed(r, f, w, bits, s + 1, z')
  {
    var h, stride := Pow2(s), Pow2(bits - s - 1);
    hide Pow2, Passed, Part, Rev, Pow, Crossed;
    PassedSize(r, f, w, bits, s, z);
    var next := s + 1;
    forall b: nat, k: nat | InPass(bits, next, b, k)
      ensures b * Pow2(next) + k < |z'|
      ensures z'[b * Pow2(next) + k] == Part(r, f, Rev(bits - next, b), Pow2(bits - next), Pow2(next),
                                             Pow(r, w, Pow2(bits - next)), k)
    {
      CrossedPart(r, f, w, bits, s, z, root, b, k);
    }
    PassedFrom(r, f, w, bits, next, z');
  }

  lemma PassedSize<E(!new)>(r: Ring<E>, f: nat -> E, w: E, bits: nat, s: nat, z: seq<E>)
    requires Passed(r, f, w, bits, s, z)
    ensures |z| == Pow2(bits)
  {
  }

  lemma PassedFrom<E(!new)>(r: Ring<E>, f: nat -> E, w: E, bits: nat, s: nat, z: seq<E>)
    requires s <= bits && |z| == Pow2(bits)
    requires forall b: nat, k: nat :: InPass(bits, s, b, k) ==>
         b * Pow2(s) + k < |z| && z[b * Pow2(s) + k] ==
           Part(r, f, Rev(bits - s, b), Pow2(bits - s), Pow2(s), Pow(r, w, Pow2(bits - s)), k)
    ensures Passed(r, f, w, bits, s, z)
  {
  }

  lemma PassedAt<E(!new)>(r: Ring<E>, f: nat -> E, w: E, bits: nat, s: nat, z: seq<E>, b: nat, k: nat)
    requires Passed(r, f, w, bits, s, z) && InPass(bits, s, b, k)
    ensures b * Pow2(s) + k < |z|
    ensures z[b * Pow2(s) + k] == Part(r, f, Rev(bits - s, b), Pow2(bits - s), Pow2(s), Pow(r, w, Pow2(bits - s)), k)
  {
  }

  /** The two blocks of a pass that make up block `b` of the next one. */
  lemma Siblings(bits: nat, s: nat, b: nat, j: nat)
    requires s < bits && b < Pow2(bits - s - 1) && j < Pow2(s)
    ensures InPass(bits, s, 2 * b, j) && InPass(bits, s, 2 * b + 1, j)
    ensures Rev(bits - s, 2 * b) == Rev(bits - s - 1, b)
    ensures Rev(bits - s, 2 * b + 1) == Rev(bits - s - 1, b) + Pow2(bits - s - 1)
    ensures Pow2(bits - s) == 2 * Pow2(bits - s - 1) && Pow2(s + 1) == 2 * Pow2(s)
    ensures b * Pow2(s + 1) == (2 * b) * Pow2(s)
    ensures (2 * b) * Pow2(s) + Pow2(s) + j == (2 * b + 1) * Pow2(s) + j
  {
    assert (2 * b) / 2 == b && (2 * b + 1) / 2 == b && (2 * b) % 2 == 0 && (2 * b + 1) % 2 == 1;
  }

  lemma CrossedPart<E(!new)>(r: Ring<E>, f: nat -> E, w: E, bits: nat, s: nat, z: seq<E>, root: E, b: nat, k: nat)
    requires Lawful(r) && s < bits && Passed(r, f, w, bits, s, z) && |z| == Pow2(bits) && |z| % (2 * Pow2(s)) == 0
    requires root == Pow(r, w, Pow2(bits - s - 1)) && HalfTurn(r, w, Pow2(bits - 1))
    requires InPass(bits, s + 1, b, k)
    ensures var i := b * Pow2(s + 1) + k;
            i < |z| && Crossed(r, z, Pow2(s), root, i) ==
              Part(r, f, Rev(bits - (s + 1), b), Pow2(bits - (s + 1)), Pow2(s + 1), Pow(r, w, Pow2(bits - (s + 1))), k)
  {
    hide Passed, Part, Rev, Pow;
    var h, stride := Pow2(s), Pow2(bits - s - 1);
    var j := if k < h then k else k - h;
    assert Pow2(s + 1) == 2 * h;
    PassIndex(bits, s + 1, b, k);
    Siblings(bits, s, b, j);
    var off := Rev(bits - s - 1, b);
    PassedAt(r, f, w, bits, s, z, 2 * b, j);
    PassedAt(r, f, w, bits, s, z, 2 * b + 1, j);
    Digits(b * (2 * h) + k, 2 * h, b, k);
    RootTurns(r, w, bits, s);
    PowMul(r, w, stride, 2);
    var odd := Part(r, f, off + stride, 2 * stride, h, Pow(r, root, 2), j);
    Mul(r, odd, Pow(r, root, j), odd);
    if k < h {
      Halves(r, f, off, stride, h, root, j);
    } else {
      UpperHalf(r, f, off, stride, h, root, j);
    }
  }

  /** The root of a pass makes half a turn over half a block. */
  lemma RootTurns<E(!new)>(r: Ring<E>, w: E, bits: nat, s: nat)
    requires Lawful(r) && s < bits && HalfTurn(r, w, Pow2(bits - 1))
    ensures HalfTurn(r, Pow(r, w, Pow2(bits - s - 1)), Pow2(s))
  {
    PowMul(r, w, Pow2(bits - s - 1), Pow2(s));
    Pow2Add(bits - s - 1, s);
  }

  /** After the last pass there is one block, the whole transform. */
  lemma LastPass<E(!new)>(r: Ring<E>, x: seq<E>, w: E, bits: nat, z: seq<E>)
    requires |x| == Pow2(bits) && Lawful(r)
    requires Passed(r, Element(r, x), w, bits, bits, z)
    ensures |z| == |x| && forall k: nat :: k < |z| ==> z[k] == Dft(r, x, w, k)
  {
    Mul(r, w, w, w);
    assert Pow(r, w, 1) == w;
    forall k: nat | k < |x| ensures k < |z| && z[k] == Dft(r, x, w, k) {
      PassedAt(r, Element(r, x), w, bits, bits, z, 0, k);
    }
  }

  /** The input, permuted. */
  lemma Reordered<E>(r: Ring<E>, x: seq<E>, bits: nat, z: seq<E>)
    requires |z| == |x| == Pow2(bits)
    requires forall i :: 0 <= i < |z| ==> Rev(bits, i) < |x| && z[i] == x[Rev(bits, i)]
    ensures forall i :: 0 <= i < |z| ==> z[i] == Element(r, x)(Rev(bits, i))
  {
  }

  /* ---- The code, in place over two arrays ---- */

  /** The complex numbers held in split arrays. */
  ghost function Held<E>(re: array<E>, im: array<E>): (z: seq<Pair<E>>)
    requires re.Length == im.Length
    reads re, im
    ensures |z| == re.Length && forall i :: 0 <= i < |z| ==> z[i] == Pair(re[i], im[i])
  {
    seq(re.Length, i requires 0 <= i < re.Length reads re, im => Pair(re[i], im[i]))
  }

  /** The bit-reversal permutation: swaps each index with its reverse, once. */
  method Permute<E>(re: array<E>, im: array<E>, bits: nat)
    requires re.Length == im.Length == Pow2(bits) && re != im
    modifies re, im
    ensures forall i :: 0 <= i < re.Length ==>
              Rev(bits, i) < re.Length && Held(re, im)[i] == old(Held(re, im))[Rev(bits, i)]
  {
    var n := re.Length;
    forall i: nat ensures Rev(bits, i) < n && (i < n ==> Rev(bits, Rev(bits, i)) == i) {
      RevBound(bits, i);
      if i < n { RevInvolution(bits, i); }
    }
    hide Rev, Pow2;
    var i := 0;
    while i < n
      invariant 0 <= i <= n
      invariant forall k: nat :: k < n ==>
        && re[k] == old(re[..])[if Min(k, Rev(bits, k)) < i then Rev(bits, k) else k]
        && im[k] == old(im[..])[if Min(k, Rev(bits, k)) < i then Rev(bits, k) else k]
    {
      var j := BitReverse(i, bits);
      if j > i {
        re[i], re[j] := re[j], re[i];
        im[i], im[j] := im[j], im[i];
      }
      i := i + 1;
    }
  }

  /** Has the pass dealt with index i, when it is at offset j of the blocks and the block at `base`? */
  ghost predicate Done(i: nat, h: nat, j: nat, base: nat)
    requires h > 0
  {
    i % h < j || (i % h == j && i - i % (2 * h) < base)
  }

  /** The two indices a butterfly works on, and that no other index is at their place. */
  lemma ButterflyIndices(h: nat, j: nat, base: nat, n: nat)
    requires 0 < h && j < h && base < n && base % (2 * h) == 0 && n % (2 * h) == 0
    ensures base + 2 * h <= n && (base + 2 * h) % (2 * h) == 0
    ensures (base + j) % (2 * h) == j && (base + j + h) % (2 * h) == j + h
    ensures forall i: nat :: Done(i, h, j, base + 2 * h) <==> Done(i, h, j, base) || i == base + j || i == base + j + h
    ensures !Done(base + j, h, j, base) && !Done(base + j + h, h, j, base)
  {
    var q := base / (2 * h);
    MultipleGap(base, n, 2 * h);
    ModAdd(base, 2 * h, 1);
    Digits(base + j, 2 * h, q, j);
    Digits(base + j + h, 2 * h, q, j + h);
    assert q * (2 * h) == (2 * q) * h;
    Digits(base + j, h, 2 * q, j);
    Distribute(2 * q, 1, h);
    Digits(base + j + h, h, 2 * q + 1, j);
    forall i: nat ensures Done(i, h, j, base + 2 * h) <==> Done(i, h, j, base) || i == base + j || i == base + j + h {
      PlaceInBlock(i, h);
      var b := i / (2 * h) * (2 * h);
      if i % h == j && b < base + 2 * h && !(b < base) {
        MultipleIs(b, 2 * h, i / (2 * h));
        if base < b { MultipleGap(base, b, 2 * h); }
      }
    }
  }

  /** The place in a block of 2h is the place in a half block, or h more. */
  lemma PlaceInBlock(i: nat, h: nat)
    requires h > 0
    ensures i % (2 * h) == i % h || i % (2 * h) == i % h + h
    ensures i - i % (2 * h) == i / (2 * h) * (2 * h)
  {
    DivMod(i, h, 2);
  }

  /** A pass part-way: the indices dealt with hold what the pass leaves there, the others what they held. */
  ghost predicate PartWay<E>(r: Ring<E>, was: seq<E>, z: seq<E>, h: nat, root: E, j: nat, base: nat) {
    && h > 0 && |z| == |was| && |was| % (2 * h) == 0
    && forall i: nat :: i < |z| ==> z[i] == if Done(i, h, j, base) then Crossed(r, was, h, root, i) else was[i]
  }

  lemma PassStarts<E>(r: Ring<E>, was: seq<E>, h: nat, root: E)
    requires h > 0 && |was| % (2 * h) == 0
    ensures PartWay(r, was, was, h, root, 0, 0)
  {
    forall i: nat ensures !Done(i, h, 0, 0) {
      PlaceInBlock(i, h);
      DivNonNegative(i, 2 * h);
      MulMono(0, i / (2 * h), 2 * h);
    }
  }

  lemma NextOffset<E>(r: Ring<E>, was: seq<E>, z: seq<E>, h: nat, root: E, j: nat, base: nat)
    requires PartWay(r, was, z, h, root, j, base) && |z| <= base
    ensures PartWay(r, was, z, h, root, j + 1, 0)
  {
    hide Crossed;
    forall i: nat | i < |z| ensures Done(i, h, j, base) <==> Done(i, h, j + 1, 0) {
      PlaceInBlock(i, h);
      DivNonNegative(i, 2 * h);
      MulMono(0, i / (2 * h), 2 * h);
    }
  }

  lemma PassEnds<E>(r: Ring<E>, was: seq<E>, z: seq<E>, h: nat, root: E)
    requires PartWay(r, was, z, h, root, h, 0)
    ensures forall i: nat :: i < |z| ==> z[i] == Crossed(r, was, h, root, i)
  {
    hide Crossed;
    forall i: nat | i < |z| ensures Done(i, h, h, 0) {}
  }

  /** One butterfly. */
  lemma Butterfly<E>(r: Ring<E>, was: seq<Pair<E>>, z: seq<Pair<E>>, h: nat, root: Pair<E>, j: nat, base: nat,
                     tw: Pair<E>)
    requires PartWay(Pairs(r), was, z, h, root, j, base) && j < h
    requires base < |z| && base % (2 * h) == 0 && tw == Pow(Pairs(r), root, j)
    ensures base + 2 * h <= |z| && (base + 2 * h) % (2 * h) == 0
    ensures var a, b := base + j, base + j + h;
            var v := PairMul(r, z[b], tw);
            PartWay(Pairs(r), was, z[a := Pair(r.add(z[a].re, v.re), r.add(z[a].im, v.im))]
                                    [b := Pair(Sub(r, z[a].re, v.re), Sub(r, z[a].im, v.im))], h, root, j, base + 2 * h)
  {
    hide Crossed, Done, Pow, PairMul;
    ButterflyIndices(h, j, base, |z|);
    CrossedAt(r, was, h, root, base + j, j);
  }

  /** One pass over blocks of 2h: offset by offset, block by block. */
  method Pass<E(!new)>(r: Ring<E>, re: array<E>, im: array<E>, h: nat, step: nat, twiddles: seq<E>, ghost root: Pair<E>)
    requires re.Length == im.Length && re != im && 0 < h && re.Length % (2 * h) == 0
    requires PassTable(r, twiddles, step, h, root)
    modifies re, im
    ensures forall i: nat :: i < re.Length ==> Held(re, im)[i] == Crossed(Pairs(r), old(Held(re, im)), h, root, i)
  {
    hide PartWay, Crossed, TwiddleAt;
    ghost var was := Held(re, im);
    PassStarts(Pairs(r), was, h, root);
    var j := 0;
    while j < h
      invariant j <= h && PartWay(Pairs(r), was, Held(re, im), h, root, j, 0)
    {
      assert TwiddleAt(r, twiddles, j, step, h, root);
      PassOffset(r, re, im, h, step, twiddles, root, j, was);
      j := j + 1;
    }
    PassEnds(Pairs(r), was, Held(re, im), h, root);
  }

  ghost predicate TwiddleAt<E>(r: Ring<E>, twiddles: seq<E>, j: nat, step: nat, h: nat, root: Pair<E>) {
    j < h ==> 2 * j * step + 1 < |twiddles| &&
              Pair(twiddles[2 * j * step], twiddles[2 * j * step + 1]) == Pow(Pairs(r), root, j)
  }

  ghost predicate PassTable<E>(r: Ring<E>, twiddles: seq<E>, step: nat, h: nat, root: Pair<E>) {
    forall j: nat :: TwiddleAt(r, twiddles, j, step, h, root)
  }

  /** One butterfly, in place. */
  method Cross<E>(r: Ring<E>, re: array<E>, im: array<E>, a: nat, b: nat, tw: Pair<E>)
    requires re.Length == im.Length && re != im && a < b < re.Length
    modifies re, im
    ensures var z := old(Held(re, im)); var v := PairMul(r, z[b], tw);
            Held(re, im) == z[a := Pair(r.add(z[a].re, v.re), r.add(z[a].im, v.im))]
                             [b := Pair(Sub(r, z[a].re, v.re), Sub(r, z[a].im, v.im))]
  {
    var xr, xi := re[b], im[b];
    var vr := Sub(r, r.mul(xr, tw.re), r.mul(xi, tw.im));
    var vi := r.add(r.mul(xr, tw.im), r.mul(xi, tw.re));
    var ur, ui := re[a], im[a];
    re[a], im[a] := r.add(ur, vr), r.add(ui, vi);
    re[b], im[b] := Sub(r, ur, vr), Sub(r, ui, vi);
  }

  method PassOffset<E(!new)>(r: Ring<E>, re: array<E>, im: array<E>, h: nat, step: nat, twiddles: seq<E>,
                             ghost root: Pair<E>, j: nat, ghost was: seq<Pair<E>>)
    requires re.Length == im.Length && re != im && j < h && re.Length % (2 * h) == 0
    requires TwiddleAt(r, twiddles, j, step, h, root)
    requires PartWay(Pairs(r), was, Held(re, im), h, root, j, 0)
    modifies re, im
    ensures PartWay(Pairs(r), was, Held(re, im), h, root, j + 1, 0)
  {
    hide PartWay, Pow, PairMul, Sub;
    var n := re.Length;
    var wr, wi := twiddles[2 * j * step], twiddles[2 * j * step + 1];
    var base := 0;
    while base < n
      invariant base % (2 * h) == 0 && PartWay(Pairs(r), was, Held(re, im), h, root, j, base)
    {
      ghost var z := Held(re, im);
      Butterfly(r, was, z, h, root, j, base, Pair(wr, wi));
      var a := base + j;
      var b := a + h;
      Cross(r, re, im, a, b, Pair(wr, wi));
      base := base + 2 * h;
    }
    NextOffset(Pairs(r), was, Held(re, im), h, root, j, base);
  }

  lemma CrossedAt<E>(r: Ring<E>, z: seq<Pair<E>>, h: nat, root: Pair<E>, a: nat, j: nat)
    requires 0 < h && j < h && a + h < |z| && |z| % (2 * h) == 0
    requires a % (2 * h) == j && (a + h) % (2 * h) == j + h
    ensures var v := PairMul(r, z[a + h], Pow(Pairs(r), root, j));
            && Crossed(Pairs(r), z, h, root, a) == Pair(r.add(z[a].re, v.re), r.add(z[a].im, v.im))
            && Crossed(Pairs(r), z, h, root, a + h) == Pair(Sub(r, z[a].re, v.re), Sub(r, z[a].im, v.im))
  {
  }

  /**
    The whole transform. The table holds w^0 .. w^(n/2 - 1); the only thing asked of w is that
    n/2 steps make half a turn.
   */
  method FftRadix2<E(!new)>(r: Ring<E>, re: array<E>, im: array<E>, twiddles: seq<E>, ghost w: Pair<E>, ghost log: nat)
    requires Lawful(r)
    requires re.Length == im.Length == Pow2(log) && re != im
    requires Table(r, twiddles, w, re.Length)
    requires log > 0 ==> HalfTurn(Pairs(r), w, Pow2(log - 1))
    modifies re, im
    ensures forall k: nat :: k < re.Length ==> Held(re, im)[k] == Dft(Pairs(r), old(Held(re, im)), w, k)
  {
    var n := re.Length;
    ghost var x := Held(re, im);
    PairsLawful(r);
    hide Pairs, Lawful, Table, Passed, HalfTurn, Dft, Rev, Pow, Element;
    var bits := CountBits(n, log);
    Permute(re, im, bits);
    Reordered(Pairs(r), x, bits, Held(re, im));
    FirstPass(Pairs(r), Element(Pairs(r), x), w, bits, Held(re, im));
    Passes(r, re, im, twiddles, w, bits, Element(Pairs(r), x));
    LastPass(Pairs(r), x, w, bits, Held(re, im));
  }

  /** `while ((1 << bits) < n) bits++` */
  method CountBits(n: nat, ghost log: nat) returns (bits: nat)
    requires n == Pow2(log)
    ensures bits == log
  {
    bits := 0;
    while Pow2(bits) < n
      invariant bits <= log
      decreases log - bits
    {
      bits := bits + 1;
    }
    if bits < log { Pow2Monotone(bits, log); }
  }

  /** `for (len = 2; len <= n; len <<= 1)` */
  method Passes<E(!new)>(r: Ring<E>, re: array<E>, im: array<E>, twiddles: seq<E>, ghost w: Pair<E>, ghost bits: nat,
                         ghost f: nat -> Pair<E>)
    requires Lawful(Pairs(r)) && re.Length == im.Length == Pow2(bits) && re != im
    requires Table(r, twiddles, w, re.Length)
    requires bits > 0 ==> HalfTurn(Pairs(r), w, Pow2(bits - 1))
    requires Passed(Pairs(r), f, w, bits, 0, Held(re, im))
    modifies re, im
    ensures Passed(Pairs(r), f, w, bits, bits, Held(re, im))
  {
    hide Lawful, Table, Passed, HalfTurn, Crossed, Pow;
    var n := re.Length;
    var len := 2;
    ghost var s := 0;
    while len <= n
      invariant s <= bits && len == 2 * Pow2(s)
      invariant Passed(Pairs(r), f, w, bits, s, Held(re, im))
      decreases bits - s
    {
      TwiddlesOfPass(r, twiddles, w, bits, s);
      ghost var z := Held(re, im);
      ghost var root := Pow(Pairs(r), w, Pow2(bits - s - 1));
      Pass(r, re, im, len / 2, n / len, twiddles, root);
      NextPass(Pairs(r), f, w, bits, s, z, Held(re, im), root);
      len := len * 2;
      s := s + 1;
    }
    if s < bits { Pow2Monotone(s + 1, bits); }
  }

  /** The twiddle table of an n-point transform: w^0, w^1, .. below w^(n/2), interleaved. */
  ghost predicate Table<E>(r: Ring<E>, twiddles: seq<E>, w: Pair<E>, n: nat) {
    && (n <= |twiddles| || n == 1)
    && forall k: nat :: 2 * k + 1 < n ==> Pair(twiddles[2 * k], twiddles[2 * k + 1]) == Pow(Pairs(r), w, k)
  }

  /** Every n/len-th twiddle of the table is a power of the pass's root. */
  lemma TwiddlesOfPass<E(!new)>(r: Ring<E>, twiddles: seq<E>, w: Pair<E>, bits: nat, s: nat)
    requires Lawful(Pairs(r)) && Table(r, twiddles, w, Pow2(bits))
    requires s <= bits && 2 * Pow2(s) <= Pow2(bits)
    ensures s < bits
    ensures Pow2(bits) / (2 * Pow2(s)) == Pow2(bits - s - 1) && Pow2(bits) % (2 * Pow2(s)) == 0
    ensures PassTable(r, twiddles, Pow2(bits - s - 1), Pow2(s), Pow(Pairs(r), w, Pow2(bits - s - 1)))
  {
    var n, h, step := Pow2(bits), Pow2(s), Pow2(bits - s - 1);
    Pow2Add(bits - s - 1, s + 1);
    Digits(n, 2 * h, step, 0);
    forall j: nat ensures TwiddleAt(r, twiddles, j, step, h, Pow(Pairs(r), w, step)) {
      hide Pow, Pow2;
      if j < h { OneTwiddle(r, twiddles, w, n, h, step, j); }
    }
  }

  lemma OneTwiddle<E(!new)>(r: Ring<E>, twiddles: seq<E>, w: Pair<E>, n: nat, h: nat, step: nat, j: nat)
    requires Lawful(Pairs(r)) && Table(r, twiddles, w, n) && n == step * (2 * h) && j < h && step > 0
    ensures TwiddleAt(r, twiddles, j, step, h, Pow(Pairs(r), w, step))
  {
    TwiddleIndex(n, h, step, j);
    PowMul(Pairs(r), w, step, j);
    hide Pow, Pairs, Lawful;
    var k := j * step;
    assert 2 * k + 1 < n;
  }

  lemma TwiddleIndex(n: nat, h: nat, step: nat, j: nat)
    requires n == step * (2 * h) && j < h && step > 0
    ensures 2 * j * step == 2 * (j * step) && step * j == j * step && 0 <= 2 * (j * step) && 2 * (j * step) + 1 < n
  {
    MulStep(j, h, step);
    assert n == 2 * (h * step);
  }
}
