/**
  The streamed MFCC kernel of Snitch (`runtime/snitch/kernels/mfcc_fp32_ssr.c`): each mel band is
  a region over two unit-stride streams with four accumulators, each group of four cepstra a
  region over the mel vector and four rows of the cosine matrix. Proved to give the portable
  kernel's features.
 */
module MfccSsr {
  import opened Arith
  import opened Rings
  import opened Ssr
  import opened Frep
  import opened Mfcc

  const UNROLL: nat := 4

  /** Every n-th term from the u-th on. */
  ghost function Lane<E>(f: nat -> E, u: nat): nat -> E { (k: nat) => f(k * UNROLL + u) }

  ghost predicate ByFour<E>(r: Ring<E>, f: nat -> E, n: nat) {
    Sum(r, f, n * UNROLL) ==
      r.add(r.add(Sum(r, Lane(f, 0), n), Sum(r, Lane(f, 1), n)), r.add(Sum(r, Lane(f, 2), n), Sum(r, Lane(f, 3), n)))
  }

  /** Four interleaved accumulators, added pairwise, make the whole sum. */
  lemma {:induction false} SumByFour<E(!new)>(r: Ring<E>, f: nat -> E, n: nat)
    requires Lawful(r)
    ensures ByFour(r, f, n)
  {
    if n == 0 {
      Add(r, r.zero, r.zero, r.zero);
    } else {
      hide ByFour, Lawful;
      SumByFour(r, f, n - 1);
      ByFourStep(r, f, n - 1);
    }
  }

  lemma ByFourStep<E(!new)>(r: Ring<E>, f: nat -> E, k: nat)
    requires Lawful(r) && ByFour(r, f, k)
    ensures ByFour(r, f, k + 1)
  {
    hide Sum, Lane, Lawful;
    FourMore(r, f, k * UNROLL);
    LaneOneMore(r, f, 0, k); LaneOneMore(r, f, 1, k); LaneOneMore(r, f, 2, k); LaneOneMore(r, f, 3, k);
    AddFour(r, Sum(r, Lane(f, 0), k), Sum(r, Lane(f, 1), k), Sum(r, Lane(f, 2), k), Sum(r, Lane(f, 3), k),
            f(k * UNROLL + 0), f(k * UNROLL + 1), f(k * UNROLL + 2), f(k * UNROLL + 3));
    assert (k + 1) * UNROLL == k * UNROLL + 4;
  }

  lemma LaneOneMore<E>(r: Ring<E>, f: nat -> E, u: nat, k: nat)
    ensures Sum(r, Lane(f, u), k + 1) == r.add(Sum(r, Lane(f, u), k), f(k * UNROLL + u))
  {
  }

  lemma FourMore<E>(r: Ring<E>, f: nat -> E, k: nat)
    ensures Sum(r, f, k + 4) == r.add(r.add(r.add(r.add(Sum(r, f, k), f(k)), f(k + 1)), f(k + 2)), f(k + 3))
  {
    assert Sum(r, f, k + 2) == r.add(Sum(r, f, k + 1), f(k + 1));
    assert Sum(r, f, k + 3) == r.add(Sum(r, f, k + 2), f(k + 2));
  }

  lemma AddFour<E(!new)>(r: Ring<E>, s0: E, s1: E, s2: E, s3: E, x0: E, x1: E, x2: E, x3: E)
    requires Lawful(r)
    ensures r.add(r.add(r.add(r.add(r.add(r.add(s0, s1), r.add(s2, s3)), x0), x1), x2), x3) ==
            r.add(r.add(r.add(s0, x0), r.add(s1, x1)), r.add(r.add(s2, x2), r.add(s3, x3)))
  {
    var s := r.add(r.add(s0, s1), r.add(s2, s3));
    Swap(r, s0, x0, s1, x1);
    Swap(r, s2, x2, s3, x3);
    Swap(r, r.add(s0, s1), r.add(x0, x1), r.add(s2, s3), r.add(x2, x3));
    Add(r, s, x0, x1);
    Add(r, r.add(s, r.add(x0, x1)), x2, x3);
    Add(r, s, r.add(x0, x1), r.add(x2, x3));
  }

  /** `len` elements one after the other, from element `first` of an array. */
  ghost function Walk<E>(s: Source<E>, first: nat, len: nat): Stream { Stream([Level(len, 4)], 1, s.base + 4 * first) }

  lemma WalkDelivers<E>(r: Ring<E>, s: Source<E>, first: nat, len: nat, e: nat)
    requires Placed(s) && first + len <= |s.data| && e < len
    ensures Delivered(r, s, Walk(s, first, len), e) == s.data[first + e]
  {
    var nest := [Level(len, 4)];
    Digits(e, 1, e, 0);
    OffsetOf(nest, e, 0);
    OffsetOfNone(nest[1..]);
    DeliversElement(r, s, Walk(s, first, len), e, first + e);
  }

  lemma WalkLength<E>(s: Source<E>, first: nat, len: nat)
    requires Placed(s) && first + len <= |s.data| && len > 0
    ensures Loops([Level(len, 4)]) && Length(Walk(s, first, len)) == len && Positive(Walk(s, first, len).nest)
  {
    var nest := [Level(len, 4)];
    assert Size(nest[1..]) == 1;
  }

  /** The first `len` values of f are the products of two runs. */
  ghost predicate DotTerms<E>(r: Ring<E>, f: nat -> E, a: seq<E>, i: nat, b: seq<E>, j: nat, len: nat) {
    && i + len <= |a| && j + len <= |b|
    && forall k: nat :: k < len ==> f(k) == r.mul(a[i + k], b[j + k])
  }

  lemma FewerTerms<E>(r: Ring<E>, f: nat -> E, a: seq<E>, i: nat, b: seq<E>, j: nat, len: nat, n: nat)
    requires DotTerms(r, f, a, i, b, j, len) && n <= len
    ensures DotTerms(r, f, a, i, b, j, n)
  {
  }

  /** `mel_energy`: a dot product of two runs, whole fours streamed and the rest scalar. */
  method MelEnergyOf<E(!new)>(r: Ring<E>, dm0: Mover, dm1: Mover, power: Source<E>, start: nat, coeff: Source<E>,
                              off: nat, len: nat,
                              ghost f: nat -> E) returns (acc: E)
    requires Lawful(r) && dm0 != dm1 && dm0.Wide() && dm1.Wide()
    requires Placed(power) && Placed(coeff)
    requires DotTerms(r, f, power.data, start, coeff.data, off, len)
    modifies dm0, dm1
    ensures acc == Sum(r, f, len) && dm0.Wide() && dm1.Wide()
    ensures old(dm1.repeat) == 0 ==> dm1.repeat == 0
  {
    var blocks := len / UNROLL;
    FewerTerms(r, f, power.data, start, coeff.data, off, len, blocks * UNROLL);
    hide Lawful, Placed, DotTerms;
    acc := r.zero;
    if blocks != 0 {
      var a := MelBlocks(r, dm0, dm1, power, start, coeff, off, blocks, f);
      acc := r.add(r.add(a[0], a[1]), r.add(a[2], a[3]));
      SumByFour(r, f, blocks);
    }
    acc := Tail(r, power.data, start, coeff.data, off, blocks * UNROLL, len, f, acc);
  }

  method Tail<E>(r: Ring<E>, power: seq<E>, start: nat, coeff: seq<E>, off: nat, from: nat, len: nat, ghost f: nat -> E,
                 acc0: E) returns (acc: E)
    requires from <= len && acc0 == Sum(r, f, from)
    requires DotTerms(r, f, power, start, coeff, off, len)
    ensures acc == Sum(r, f, len)
  {
    acc := acc0;
    var i := from;
    while i < len
      invariant i <= len && acc == Sum(r, f, i)
    {
      acc := r.add(acc, r.mul(power[start + i], coeff[off + i]));
      i := i + 1;
    }
  }

  method MelBlocks<E(!new)>(r: Ring<E>, dm0: Mover, dm1: Mover, power: Source<E>, start: nat, coeff: Source<E>,
                            off: nat, blocks: nat,
                            ghost f: nat -> E) returns (acc: seq<E>)
    requires Lawful(r) && dm0 != dm1 && dm0.Wide() && dm1.Wide() && 0 < blocks
    requires Placed(power) && Placed(coeff)
    requires DotTerms(r, f, power.data, start, coeff.data, off, blocks * UNROLL)
    modifies dm0, dm1
    ensures dm0.Wide() && dm1.Wide() && dm1.repeat == 0
    ensures |acc| == UNROLL && forall u: nat :: u < UNROLL ==> acc[u] == Sum(r, Lane(f, u), blocks)
  {
    var n := blocks * UNROLL;
    WalkLength(power, start, n);
    WalkLength(coeff, off, n);
    ArmWalks(dm0, dm1, power, start, coeff, off, n);
    hide Lawful, Placed, Mover.Streaming, Loops, Size, Fetch, Products, Lane, DotTerms;
    var zeros := [r.zero, r.zero, r.zero, r.zero];
    acc := Region(r, dm0, power, Walk(power, start, n), dm1, coeff, Walk(coeff, off, n), zeros, blocks, 0);
    MelLanes(r, power, start, coeff, off, blocks, f, zeros, acc);
  }

  /** Both streams over a run of elements each, every element once. */
  method ArmWalks<E>(dm0: Mover, dm1: Mover, power: Source<E>, start: nat, coeff: Source<E>, off: nat, n: nat)
    requires dm0 != dm1 && dm0.Wide() && dm1.Wide() && Loops([Level(n, 4)])
    modifies dm0, dm1
    ensures At(dm0, Walk(power, start, n), 0) && At(dm1, Walk(coeff, off, n), 0) && dm1.repeat == 0
  {
    hide Reached, Loops;
    dm0.Repeat(1);
    dm1.Repeat(1);
    dm0.Loop([Level(n, 4)]);
    dm1.Loop([Level(n, 4)]);
    dm0.Read([Level(n, 4)], power.base + 4 * start);
    dm1.Read([Level(n, 4)], coeff.base + 4 * off);
  }

  lemma MelLanes<E(!new)>(r: Ring<E>, power: Source<E>, start: nat, coeff: Source<E>, off: nat, blocks: nat,
                          f: nat -> E, zeros: seq<E>, acc: seq<E>)
    requires 0 < blocks && Placed(power) && Placed(coeff)
    requires DotTerms(r, f, power.data, start, coeff.data, off, blocks * UNROLL)
    requires |acc| == |zeros| == UNROLL && forall u: nat :: u < UNROLL ==> zeros[u] == r.zero
    requires forall u: nat :: u < UNROLL ==> acc[u] == Fold(r, zeros[u],
               Products(r, power, Walk(power, start, blocks * UNROLL), coeff, Walk(coeff, off, blocks * UNROLL), 0, u,
                        UNROLL), blocks)
    ensures forall u: nat :: u < UNROLL ==> acc[u] == Sum(r, Lane(f, u), blocks)
  {
    hide Products, Placed, Lane, DotTerms;
    forall u: nat | u < UNROLL ensures acc[u] == Sum(r, Lane(f, u), blocks) {
      MelLane(r, power, start, coeff, off, blocks, f, u);
    }
  }

  lemma MelLane<E(!new)>(r: Ring<E>, power: Source<E>, start: nat, coeff: Source<E>, off: nat, blocks: nat, f: nat -> E,
                         u: nat)
    requires 0 < blocks && Placed(power) && Placed(coeff) && u < UNROLL
    requires DotTerms(r, f, power.data, start, coeff.data, off, blocks * UNROLL)
    ensures Fold(r, r.zero, Products(r, power, Walk(power, start, blocks * UNROLL), coeff,
                                     Walk(coeff, off, blocks * UNROLL), 0, u, UNROLL), blocks)
            == Sum(r, Lane(f, u), blocks)
  {
    var n := blocks * UNROLL;
    var p := Products(r, power, Walk(power, start, n), coeff, Walk(coeff, off, n), 0, u, UNROLL);
    forall k: nat | k < blocks ensures p(k) == Lane(f, u)(k) {
      MelProduct(r, power, start, coeff, off, n, f, k, u);
    }
    hide Products, Lane;
    FoldSame(r, r.zero, p, Lane(f, u), blocks);
    SumIsFold(r, Lane(f, u), blocks);
  }

  lemma MelProduct<E>(r: Ring<E>, power: Source<E>, start: nat, coeff: Source<E>, off: nat, n: nat, f: nat -> E, k: nat,
                      u: nat)
    requires Placed(power) && Placed(coeff) && k * UNROLL + u < n
    requires start + n <= |power.data| && off + n <= |coeff.data|
    requires f(k * UNROLL + u) == r.mul(power.data[start + (k * UNROLL + u)], coeff.data[off + (k * UNROLL + u)])
    ensures Products(r, power, Walk(power, start, n), coeff, Walk(coeff, off, n), 0, u, UNROLL)(k) == Lane(f, u)(k)
  {
    hide Products, Delivered;
    ProductsAt(r, power, Walk(power, start, n), coeff, Walk(coeff, off, n), 0, u, UNROLL, k);
    WalkDelivers(r, power, start, n, k * UNROLL + u);
    WalkDelivers(r, coeff, off, n, k * UNROLL + u);
    assert 0 + k * UNROLL + u == k * UNROLL + u;
  }

  /** The mel bands, each through `mel_energy`. */
  method MelBandsStreamed<E(!new)>(r: Ring<E>, tb: Tables<E>, dm0: Mover, dm1: Mover, re: array<E>, pRe: nat,
                                   pCoeff: nat, mel: array<E>,
                                   ghost x: seq<Pair<E>>, ghost w: Pair<E>)
    requires Lawful(r) && Valid(r, tb, w) && dm0 != dm1 && dm0.Wide() && dm1.Wide()
    requires re != mel && mel.Length == tb.nbMel && HoldsPower(r, x, w, re[..], tb.FftLen() / 2 + 1)
    requires pRe + 4 * re.Length <= WORD && pCoeff + 4 * |tb.melCoeff| <= WORD
    modifies mel, dm0, dm1
    ensures HoldsMel(r, tb, x, w, mel[..], tb.nbMel) && dm0.Wide() && dm1.Wide()
    ensures old(dm1.repeat) == 0 ==> dm1.repeat == 0
  {
    hide HoldsPower, MelEnergy, Tables.FftLen, Lawful;
    ghost var was := re[..];
    var power, coeff := Source(re[..], pRe), Source(tb.melCoeff, pCoeff);
    var off, m := 0, 0;
    while m < tb.nbMel
      invariant m <= tb.nbMel && off == MelOffset(tb.melLen, m) && dm0.Wide() && dm1.Wide() && re[..] == was
      invariant HoldsMel(r, tb, x, w, mel[..], m) && (old(dm1.repeat) == 0 ==> dm1.repeat == 0)
    {
      var acc := Band(r, tb, dm0, dm1, power, coeff, m, off, x, w);
      off := off + tb.melLen[m];
      mel[m] := tb.floorLog(acc);
      m := m + 1;
    }
  }

  method Band<E(!new)>(r: Ring<E>, tb: Tables<E>, dm0: Mover, dm1: Mover, power: Source<E>, coeff: Source<E>, m: nat,
                       off: nat,
                       ghost x: seq<Pair<E>>, ghost w: Pair<E>) returns (acc: E)
    requires Lawful(r) && Valid(r, tb, w) && m < tb.nbMel && off == MelOffset(tb.melLen, m)
    requires HoldsPower(r, x, w, power.data, tb.FftLen() / 2 + 1) && coeff.data == tb.melCoeff && Placed(power) &&
             Placed(coeff)
    requires dm0 != dm1 && dm0.Wide() && dm1.Wide()
    modifies dm0, dm1
    ensures acc == MelEnergy(r, tb, x, w, m) && dm0.Wide() && dm1.Wide()
    ensures old(dm1.repeat) == 0 ==> dm1.repeat == 0
  {
    BandBounds(r, tb, w, m);
    hide HoldsPower, MelEnergy, MelTerm, Tables.FftLen, Lawful, Valid, Placed, DotTerms;
    BandTerms(r, tb, x, w, power.data, tb.FftLen() / 2 + 1, m);
    acc := MelEnergyOf(r, dm0, dm1, power, tb.melStart[m], coeff, off, tb.melLen[m], MelTerm(r, tb, x, w, m));
    EnergyIs(r, tb, x, w, m);
  }

  lemma EnergyIs<E>(r: Ring<E>, tb: Tables<E>, x: seq<Pair<E>>, w: Pair<E>, m: nat)
    requires m < |tb.melStart| && m < |tb.melLen|
    ensures MelEnergy(r, tb, x, w, m) == Sum(r, MelTerm(r, tb, x, w, m), tb.melLen[m])
  {
  }

  lemma BandBounds<E>(r: Ring<E>, tb: Tables<E>, w: Pair<E>, m: nat)
    requires Valid(r, tb, w) && m < tb.nbMel
    ensures m < |tb.melStart| && m < |tb.melLen| && tb.melStart[m] + tb.melLen[m] <= tb.FftLen() / 2 + 1
    ensures MelOffset(tb.melLen, m) + tb.melLen[m] <= |tb.melCoeff|
  {
    MelOffsetGrows(tb.melLen, m, tb.nbMel);
  }

  lemma BandTerms<E>(r: Ring<E>, tb: Tables<E>, x: seq<Pair<E>>, w: Pair<E>, re: seq<E>, n: nat, m: nat)
    requires m < |tb.melStart| && m < |tb.melLen| && HoldsPower(r, x, w, re, n)
    requires tb.melStart[m] + tb.melLen[m] <= n && MelOffset(tb.melLen, m) + tb.melLen[m] <= |tb.melCoeff|
    ensures n <= |re| && DotTerms(r, MelTerm(r, tb, x, w, m), re, tb.melStart[m], tb.melCoeff, MelOffset(tb.melLen, m),
                                  tb.melLen[m])
  {
    hide MelOffset, MelTerm;
    forall i: nat | i < tb.melLen[m]
      ensures MelTerm(r, tb, x, w, m)(i) == r.mul(re[tb.melStart[m] + i], tb.melCoeff[MelOffset(tb.melLen, m) + i])
    {
      MelTermIs(r, tb, x, w, re, n, m, i);
    }
  }

  /* ---- The cosine transform ---- */

  ghost function MelStream<E>(mel: Source<E>, nbMel: nat): Stream { Stream([Level(nbMel, 4)], UNROLL, mel.base) }

  function RowsNest(nbMel: nat): seq<Level> { [Level(UNROLL, nbMel * 4), Level(nbMel, 4)] }

  /** Column after column of four rows of the matrix, from row c on. */
  ghost function RowsStream<E>(dct: Source<E>, nbMel: nat, c: nat): Stream
  {
    Stream(RowsNest(nbMel), 1, dct.base + 4 * (c * nbMel))
  }

  lemma DctNests<E>(mel: Source<E>, dct: Source<E>, nbMel: nat, c: nat)
    requires 0 < nbMel <= |mel.data| && Placed(mel)
    ensures Loops([Level(nbMel, 4)]) && Loops(RowsNest(nbMel)) && Positive([Level(nbMel, 4)]) &&
            Positive(RowsNest(nbMel))
    ensures Length(MelStream(mel, nbMel)) == Length(RowsStream(dct, nbMel, c)) == nbMel * UNROLL
  {
    assert Size([Level(nbMel, 4)][1..]) == 1;
    assert Size(RowsNest(nbMel)[1..][1..]) == 1 && Size(RowsNest(nbMel)[1..]) == nbMel;
  }

  lemma DctDelivers<E>(r: Ring<E>, mel: Source<E>, dct: Source<E>, nbMel: nat, c: nat, u: nat, m: nat)
    requires m < nbMel <= |mel.data| && Placed(mel) && Placed(dct) && u < UNROLL && (c + UNROLL) * nbMel <= |dct.data|
    ensures Positive([Level(nbMel, 4)]) && Positive(RowsNest(nbMel)) && (c + u) * nbMel + m < |dct.data|
    ensures Delivered(r, mel, MelStream(mel, nbMel), m * UNROLL + u) == mel.data[m]
    ensures Delivered(r, dct, RowsStream(dct, nbMel, c), m * UNROLL + u) == dct.data[(c + u) * nbMel + m]
  {
    hide Delivered, Placed;
    MelDelivers(r, mel, nbMel, u, m);
    RowElement(c, u, nbMel, m);
    MulMono(c + u + 1, c + UNROLL, nbMel);
    RowDelivers(r, dct, nbMel, c, u, m);
  }

  lemma MelDelivers<E>(r: Ring<E>, mel: Source<E>, nbMel: nat, u: nat, m: nat)
    requires m < nbMel <= |mel.data| && Placed(mel) && u < UNROLL
    ensures Positive([Level(nbMel, 4)])
    ensures Delivered(r, mel, MelStream(mel, nbMel), m * UNROLL + u) == mel.data[m]
  {
    hide Delivered, Offset, Quo, Element;
    var nest, e := [Level(nbMel, 4)], m * UNROLL + u;
    QuoIs(e, UNROLL, m, u);
    OffsetOf(nest, m, 0);
    OffsetOfNone(nest[1..]);
    DeliversElement(r, mel, MelStream(mel, nbMel), e, m);
  }

  lemma QuoIs(e: nat, c: nat, q: nat, l: nat)
    requires l < c && e == q * c + l
    ensures Quo(e, c) == q
  {
    Digits(e, c, q, l);
  }

  lemma RowElement(c: nat, u: nat, nbMel: nat, m: nat)
    requires m < nbMel
    ensures c * nbMel + u * nbMel + m == (c + u) * nbMel + m < (c + u + 1) * nbMel
    ensures u * (nbMel * 4) == u * nbMel * 4
  {
    Distribute(c, u, nbMel);
    Distribute(c + u, 1, nbMel);
    MulAssoc(u, nbMel, 4);
  }

  lemma RowDelivers<E>(r: Ring<E>, dct: Source<E>, nbMel: nat, c: nat, u: nat, m: nat)
    requires m < nbMel && Placed(dct) && u < UNROLL && 0 <= (c + u) * nbMel + m < |dct.data|
    ensures Positive(RowsNest(nbMel))
    ensures Delivered(r, dct, RowsStream(dct, nbMel, c), m * UNROLL + u) == dct.data[(c + u) * nbMel + m]
  {
    hide Delivered, Offset, Quo, Element;
    var rows, e := RowsNest(nbMel), m * UNROLL + u;
    QuoIs(e, 1, e, 0);
    OffsetOf(rows, u, m);
    OffsetOf(rows[1..], m, 0);
    OffsetOfNone(rows[1..][1..]);
    RowElement(c, u, nbMel, m);
    DeliversElement(r, dct, RowsStream(dct, nbMel, c), e, (c + u) * nbMel + m);
  }

  /** What accumulator u takes in is the terms of cepstrum c + u. */
  lemma DctLane<E(!new)>(r: Ring<E>, tb: Tables<E>, x: seq<Pair<E>>, w: Pair<E>, mel: Source<E>, dct: Source<E>, c: nat,
                         u: nat)
    requires Lawful(r) && Valid(r, tb, w) && 0 < tb.nbMel <= |mel.data| && HoldsMel(r, tb, x, w, mel.data, tb.nbMel)
    requires Placed(mel) && Placed(dct) && dct.data == tb.dct && c + UNROLL <= tb.nbCep && u < UNROLL
    requires Positive([Level(tb.nbMel, 4)]) && Positive(RowsNest(tb.nbMel))
    ensures Fold(r, r.zero, Products(r, mel, MelStream(mel, tb.nbMel), dct, RowsStream(dct, tb.nbMel, c), 0, u, UNROLL),
                 tb.nbMel) ==
            Cepstrum(r, tb, x, w, c + u)
  {
    MulMono(c + UNROLL, tb.nbCep, tb.nbMel);
    DctTerms(r, tb, x, w, mel, dct, c, u);
    hide *;
    FoldSame(r, r.zero, Products(r, mel, MelStream(mel, tb.nbMel), dct, RowsStream(dct, tb.nbMel, c), 0, u, UNROLL),
             CepTerm(r, tb, x, w, c + u), tb.nbMel);
    SumIsFold(r, CepTerm(r, tb, x, w, c + u), tb.nbMel);
    CepstrumIs(r, tb, x, w, c + u);
  }

  lemma CepstrumIs<E>(r: Ring<E>, tb: Tables<E>, x: seq<Pair<E>>, w: Pair<E>, c: nat)
    ensures Cepstrum(r, tb, x, w, c) == Sum(r, CepTerm(r, tb, x, w, c), tb.nbMel)
  {
  }

  lemma DctTerms<E(!new)>(r: Ring<E>, tb: Tables<E>, x: seq<Pair<E>>, w: Pair<E>, mel: Source<E>, dct: Source<E>,
                          c: nat, u: nat)
    requires Lawful(r) && tb.nbMel <= |mel.data| && HoldsMel(r, tb, x, w, mel.data, tb.nbMel)
    requires Placed(mel) && Placed(dct) && dct.data == tb.dct && (c + UNROLL) * tb.nbMel <= |tb.dct| && u < UNROLL
    requires Positive([Level(tb.nbMel, 4)]) && Positive(RowsNest(tb.nbMel))
    ensures forall m: nat :: m < tb.nbMel ==>
              Products(r, mel, MelStream(mel, tb.nbMel), dct, RowsStream(dct, tb.nbMel, c), 0, u, UNROLL)(m) ==
                CepTerm(r, tb, x, w, c + u)(m)
  {
    hide Products, CepTerm, RowsNest, Lawful, Placed, MelEnergy, Delivered, Positive;
    forall m: nat | m < tb.nbMel
      ensures Products(r, mel, MelStream(mel, tb.nbMel), dct, RowsStream(dct, tb.nbMel, c), 0, u, UNROLL)(m) ==
                CepTerm(r, tb, x, w, c + u)(m)
    {
      DctDelivers(r, mel, dct, tb.nbMel, c, u, m);
      DeliveredProduct(r, mel, MelStream(mel, tb.nbMel), dct, RowsStream(dct, tb.nbMel, c), u, UNROLL, m,
                       mel.data[m], dct.data[(c + u) * tb.nbMel + m]);
      CepTermIs(r, tb, x, w, c + u, m);
      Mul(r, mel.data[m], tb.dct[(c + u) * tb.nbMel + m], r.zero);
    }
  }

  /** The product of two delivered elements is one term of an accumulator. */
  lemma DeliveredProduct<E>(r: Ring<E>, src0: Source<E>, s0: Stream, src1: Source<E>, s1: Stream, u: nat, unroll: nat,
                            m: nat, x: E, y: E)
    requires Positive(s0.nest) && Positive(s1.nest) && s0.times > 0 && s1.times > 0
    requires Delivered(r, src0, s0, m * unroll + u) == x && Delivered(r, src1, s1, m * unroll + u) == y
    ensures Products(r, src0, s0, src1, s1, 0, u, unroll)(m) == r.mul(x, y)
  {
    hide Products, Delivered;
    ProductsAt(r, src0, s0, src1, s1, 0, u, unroll, m);
    assert 0 + m * unroll + u == m * unroll + u;
  }

  lemma DctLanes<E(!new)>(r: Ring<E>, tb: Tables<E>, x: seq<Pair<E>>, w: Pair<E>, mel: Source<E>, dct: Source<E>,
                          c: nat, zeros: seq<E>, acc: seq<E>)
    requires Lawful(r) && Valid(r, tb, w) && 0 < tb.nbMel <= |mel.data| && HoldsMel(r, tb, x, w, mel.data, tb.nbMel)
    requires Placed(mel) && Placed(dct) && dct.data == tb.dct && c + UNROLL <= tb.nbCep
    requires Positive([Level(tb.nbMel, 4)]) && Positive(RowsNest(tb.nbMel))
    requires |acc| == |zeros| == UNROLL && forall u: nat :: u < UNROLL ==> zeros[u] == r.zero
    requires forall u: nat :: u < UNROLL ==>
               acc[u] == Fold(r, zeros[u], Products(r, mel, MelStream(mel, tb.nbMel), dct, RowsStream(dct, tb.nbMel, c),
                                                    0, u, UNROLL), tb.nbMel)
    ensures forall u: nat :: u < UNROLL ==> acc[u] == Cepstrum(r, tb, x, w, c + u)
  {
    hide Lawful, Valid, HoldsMel, Placed, Products, RowsNest, Cepstrum;
    forall u: nat | u < UNROLL ensures acc[u] == Cepstrum(r, tb, x, w, c + u) {
      DctLane(r, tb, x, w, mel, dct, c, u);
    }
  }

  /** Four cepstra through the region. */
  method FourCepstra<E(!new)>(r: Ring<E>, tb: Tables<E>, dm0: Mover, dm1: Mover, mel: Source<E>, dct: Source<E>, c: nat,
                              ghost x: seq<Pair<E>>, ghost w: Pair<E>) returns (acc: seq<E>)
    requires Lawful(r) && Valid(r, tb, w) && 0 < tb.nbMel <= |mel.data| && HoldsMel(r, tb, x, w, mel.data, tb.nbMel)
    requires Placed(mel) && Placed(dct) && dct.data == tb.dct && c + UNROLL <= tb.nbCep
    requires dm0 != dm1 && dm0.Wide() && dm1.Wide() && dm0.repeat == UNROLL - 1 && dm1.repeat == 0
    modifies dm0`bounds, dm0`strides, dm0`dim, dm0`ptr, dm0`idx, dm0`rep, dm0`live,
             dm1`bounds, dm1`strides, dm1`dim, dm1`ptr, dm1`idx, dm1`rep, dm1`live
    ensures dm0.Wide() && dm1.Wide()
    ensures |acc| == UNROLL && forall u: nat :: u < UNROLL ==> acc[u] == Cepstrum(r, tb, x, w, c + u)
  {
    DctNests(mel, dct, tb.nbMel, c);
    hide Lawful, Valid, HoldsMel, Placed, Reached, Loops, Size, Fetch, Products, RowsNest, Cepstrum;
    dm0.Loop([Level(tb.nbMel, 4)]);
    dm1.Loop(RowsNest(tb.nbMel));
    dm0.Read([Level(tb.nbMel, 4)], mel.base);
    dm1.Read(RowsNest(tb.nbMel), dct.base + 4 * (c * tb.nbMel));
    var zeros := [r.zero, r.zero, r.zero, r.zero];
    acc := Region(r, dm0, mel, MelStream(mel, tb.nbMel), dm1, dct, RowsStream(dct, tb.nbMel, c), zeros, tb.nbMel, 0);
    DctLanes(r, tb, x, w, mel, dct, c, zeros, acc);
  }

  /** Stores four cepstra in their place. */
  method StoreFour<E>(r: Ring<E>, tb: Tables<E>, ghost audio: seq<E>, ghost nbFrames: nat, t: nat, out: array<E>,
                      c: nat, acc: seq<E>, ghost w: Pair<E>, ghost was: seq<E>)
    requires t < nbFrames && c + |acc| <= tb.nbCep
    requires forall u: nat :: u < |acc| ==> acc[u] == Cepstrum(r, tb, FrameOf(r, tb, audio, t), w, c + u)
    requires Emitted(r, tb, audio, nbFrames, w, was, out[..], t, c)
    modifies out
    ensures Emitted(r, tb, audio, nbFrames, w, was, out[..], t, c + |acc|)
  {
    hide *;
    var u := 0;
    while u < |acc|
      invariant u <= |acc| && Emitted(r, tb, audio, nbFrames, w, was, out[..], t, c + u)
    {
      EmitOne(r, tb, audio, nbFrames, w, was, out[..], t, c + u);
      out[t * tb.nbCep + (c + u)] := acc[u];
      u := u + 1;
    }
  }

  /** A block of four cepstra: the region, then the stores. */
  method NextFour<E(!new)>(r: Ring<E>, tb: Tables<E>, ghost audio: seq<E>, ghost nbFrames: nat, t: nat, dm0: Mover,
                           dm1: Mover,
                           mel: Source<E>, dct: Source<E>, out: array<E>, c: nat, ghost w: Pair<E>, ghost was: seq<E>)
    requires Lawful(r) && Valid(r, tb, w) && t < nbFrames && c + UNROLL <= tb.nbCep
    requires dm0 != dm1 && dm0.Wide() && dm1.Wide() && dm0.repeat == UNROLL - 1 && dm1.repeat == 0
    requires Placed(mel) && Placed(dct) && dct.data == tb.dct
    requires 0 < tb.nbMel <= |mel.data| && HoldsMel(r, tb, FrameOf(r, tb, audio, t), w, mel.data, tb.nbMel)
    requires Emitted(r, tb, audio, nbFrames, w, was, out[..], t, c)
    modifies out, dm0`bounds, dm0`strides, dm0`dim, dm0`ptr, dm0`idx, dm0`rep, dm0`live,
             dm1`bounds, dm1`strides, dm1`dim, dm1`ptr, dm1`idx, dm1`rep, dm1`live
    ensures dm0.Wide() && dm1.Wide()
    ensures Emitted(r, tb, audio, nbFrames, w, was, out[..], t, c + UNROLL)
  {
    ghost var x, sofar := FrameOf(r, tb, audio, t), out[..];
    hide *;
    var acc := FourCepstra(r, tb, dm0, dm1, mel, dct, c, x, w);
    assert out[..] == sofar;
    StoreFour(r, tb, audio, nbFrames, t, out, c, acc, w, was);
  }

  /** The cepstra in fours, `full` of them. */
  method CepstraInFours<E(!new)>(r: Ring<E>, tb: Tables<E>, ghost audio: seq<E>, ghost nbFrames: nat, t: nat,
                                 dm0: Mover, dm1: Mover,
                                 mel: Source<E>, dct: Source<E>, out: array<E>, full: nat, ghost w: Pair<E>,
                                   ghost was: seq<E>)
    requires Lawful(r) && Valid(r, tb, w) && t < nbFrames && full <= tb.nbCep && full % 4 == 0
    requires dm0 != dm1 && dm0.Wide() && dm1.Wide() && dm0.repeat == UNROLL - 1 && dm1.repeat == 0
    requires Placed(mel) && Placed(dct) && dct.data == tb.dct
    requires 0 < tb.nbMel <= |mel.data| && HoldsMel(r, tb, FrameOf(r, tb, audio, t), w, mel.data, tb.nbMel)
    requires Emitted(r, tb, audio, nbFrames, w, was, out[..], t, 0)
    modifies out, dm0`bounds, dm0`strides, dm0`dim, dm0`ptr, dm0`idx, dm0`rep, dm0`live,
             dm1`bounds, dm1`strides, dm1`dim, dm1`ptr, dm1`idx, dm1`rep, dm1`live
    ensures dm0.Wide() && dm1.Wide()
    ensures Emitted(r, tb, audio, nbFrames, w, was, out[..], t, full)
  {
    hide Emitted, Lawful, Valid, HoldsMel, Placed, FrameOf;
    var c := 0;
    while c < full
      invariant c <= full && c % 4 == 0 && dm0.Wide() && dm1.Wide()
      invariant Emitted(r, tb, audio, nbFrames, w, was, out[..], t, c)
    {
      NextFour(r, tb, audio, nbFrames, t, dm0, dm1, mel, dct, out, c, w, was);
      c := c + UNROLL;
    }
  }

  /** One frame after its spectrum: bands, then cepstra in fours, then the rest. */
  method Reduce<E(!new)>(r: Ring<E>, tb: Tables<E>, ghost audio: seq<E>, ghost nbFrames: nat, t: nat, dm0: Mover,
                         dm1: Mover,
                         re: array<E>, pRe: nat, mel: array<E>, pMel: nat, pCoeff: nat, pDct: nat, out: array<E>,
                           ghost w: Pair<E>, ghost was: seq<E>)
    requires Lawful(r) && Valid(r, tb, w) && t < nbFrames && 0 < tb.nbMel
    requires dm0 != dm1 && dm0.Wide() && dm1.Wide() && re != mel && out != re && out != mel && mel.Length == tb.nbMel
    requires pRe + 4 * re.Length <= WORD && pMel + 4 * mel.Length <= WORD
    requires pCoeff + 4 * |tb.melCoeff| <= WORD && pDct + 4 * |tb.dct| <= WORD
    requires HoldsPower(r, FrameOf(r, tb, audio, t), w, re[..], tb.FftLen() / 2 + 1)
    requires Emitted(r, tb, audio, nbFrames, w, was, out[..], t, 0)
    modifies out, mel, dm0, dm1
    ensures Emitted(r, tb, audio, nbFrames, w, was, out[..], t + 1, 0)
    ensures dm0.Wide() && dm1.Wide()
    ensures old(dm1.repeat) == 0 ==> dm1.repeat == 0
  {
    ghost var x, sofar := FrameOf(r, tb, audio, t), out[..];
    var full := tb.nbCep / UNROLL * UNROLL;
    assert full <= tb.nbCep && full % 4 == 0;
    hide HoldsPower, HoldsMel, Emitted, FrameOf, Lawful, Valid, Tables.FftLen;
    MelBandsStreamed(r, tb, dm0, dm1, re, pRe, pCoeff, mel, x, w);
    assert out[..] == sofar;
    ghost var felt := mel[..];
    if full != 0 {
      dm0.Repeat(UNROLL);
      dm1.Repeat(1);
      CepstraInFours(r, tb, audio, nbFrames, t, dm0, dm1, Source(mel[..], pMel), Source(tb.dct, pDct), out, full, w,
                     was);
      assert mel[..] == felt;
    }
    Cepstra(r, tb, audio, nbFrames, t, mel, out, full, w, was);
    FrameEmitted(r, tb, audio, nbFrames, w, was, out[..], t);
  }

  /** Without a mel band every feature is zero. */
  lemma NoBands<E>(r: Ring<E>, tb: Tables<E>, audio: seq<E>, nbFrames: nat, w: Pair<E>, was: seq<E>)
    requires tb.nbMel == 0 && nbFrames * tb.nbCep <= |was|
    ensures HoldsFeatures(r, tb, audio, nbFrames, w, was, was) <==>
            forall q: nat :: q < nbFrames * tb.nbCep ==> was[q] == r.zero
  {
    hide FrameOf;
    if HoldsFeatures(r, tb, audio, nbFrames, w, was, was) {
      forall q: nat | q < nbFrames * tb.nbCep ensures was[q] == r.zero {
        var t, c := FeatureOf(q, nbFrames, tb.nbCep);
        assert HoldsCepstrum(r, tb, audio, w, was, t, c);
      }
    } else if forall q: nat :: q < nbFrames * tb.nbCep ==> was[q] == r.zero {
      forall t: nat, c: nat | t < nbFrames && c < tb.nbCep ensures HoldsCepstrum(r, tb, audio, w, was, t, c) {
        MulStep(t, nbFrames, tb.nbCep);
        assert was[t * tb.nbCep + c] == r.zero;
      }
    }
  }

  lemma FeatureOf(q: nat, nbFrames: nat, nbCep: nat) returns (t: nat, c: nat)
    requires q < nbFrames * nbCep
    ensures t < nbFrames && c < nbCep && q == t * nbCep + c
  {
    assert nbCep > 0;
    t, c := Quo(q, nbCep), Rem(q, nbCep);
    if t >= nbFrames { MulMono(nbFrames, t, nbCep); }
  }

  /** One cepstrum and no mel band. */
  const NO_BANDS: Tables<int> := Tables(0, 0, 0, [], [], [], [], [], 0, [], 1, (a: int) => a)

  /** One such frame: what was in the output is no feature, and the kernel leaves it there. */
  lemma NoBandsExample()
    ensures Valid(INTEGERS, NO_BANDS, Pair(1, 0)) && Audio(NO_BANDS, [], 1)
    ensures HoldsFeatures(INTEGERS, NO_BANDS, [], 1, Pair(1, 0), [0], [7])
    ensures !HoldsFeatures(INTEGERS, NO_BANDS, [], 1, Pair(1, 0), [7], [7])
  {
    NoBands(INTEGERS, NO_BANDS, [], 1, Pair(1, 0), [7]);
    hide FrameOf;
    assert [7][0] != INTEGERS.zero;
    forall t: nat, c: nat | t < 1 && c < 1 ensures HoldsCepstrum(INTEGERS, NO_BANDS, [], Pair(1, 0), [0], t, c) {}
  }

  /**
    The streamed kernel: the portable kernel's features, unless there is not a single mel band.
    Then it leaves the output as it was, where the portable kernel writes zeros. It repeats stream 1's
    elements no more often than it found set, as the other kernels need.
   */
  method Streamed<E(!new)>(r: Ring<E>, tb: Tables<E>, audio: seq<E>, out: array<E>, nbFrames: nat, dm0: Mover,
                           dm1: Mover,
                           re: array<E>, pRe: nat, im: array<E>, mel: array<E>, pMel: nat, pCoeff: nat, pDct: nat,
                             ghost w: Pair<E>)
    requires Lawful(r) && Valid(r, tb, w) && Audio(tb, audio, nbFrames)
    requires dm0 != dm1 && dm0.Wide() && dm1.Wide()
    requires re != im && re != mel && im != mel && out != re && out != im && out != mel
    requires re.Length == im.Length == tb.FftLen() && mel.Length == tb.nbMel && nbFrames * tb.nbCep <= out.Length
    requires pRe + 4 * re.Length <= WORD && pMel + 4 * mel.Length <= WORD
    requires pCoeff + 4 * |tb.melCoeff| <= WORD && pDct + 4 * |tb.dct| <= WORD
    modifies out, re, im, mel, dm0, dm1
    ensures tb.nbMel == 0 ==> out[..] == old(out[..])
    ensures HoldsFeatures(r, tb, audio, nbFrames, w, out[..], old(out[..])) <==>
            tb.nbMel > 0 || forall q: nat :: q < nbFrames * tb.nbCep ==> old(out[q]) == r.zero
    ensures old(dm1.repeat) == 0 ==> dm1.repeat == 0
  {
    ghost var was := out[..];
    if tb.nbMel == 0 { NoBands(r, tb, audio, nbFrames, w, was); }
    if nbFrames == 0 || tb.nbMel == 0 || tb.nbCep == 0 { return; }
    NothingEmitted(r, tb, audio, nbFrames, w, was);
    var t := 0;
    while t < nbFrames
      invariant t <= nbFrames && dm0.Wide() && dm1.Wide() && (old(dm1.repeat) == 0 ==> dm1.repeat == 0)
      invariant Emitted(r, tb, audio, nbFrames, w, was, out[..], t, 0)
    {
      hide HoldsPower, Emitted, FrameOf, Lawful, Valid;
      ghost var sofar := out[..];
      Spectrum(r, tb, audio, t, re, im, w);
      assert out[..] == sofar;
      Reduce(r, tb, audio, nbFrames, t, dm0, dm1, re, pRe, mel, pMel, pCoeff, pDct, out, w, was);
      t := t + 1;
    }
    AllEmitted(r, tb, audio, nbFrames, w, was, out[..]);
  }
}
