/**
  The streamed convolution of Snitch (`runtime/snitch/kernels/conv2d_fp32_ssr.c`): four filters
  share a window of the input, one stream walking the window and the other the same tap of the
  four filters; filters left over are computed by plain loops.
 */
module ConvSsr {
  import opened Arith
  import opened Options
  import opened Rings
  import opened Ssr
  import opened Frep
  import opened Tiles

  const UNROLL: nat := 4

  /** Input channels and (padded) size, filters, window, steps. */
  datatype Conv = Conv(c: nat, h: nat, w: nat, f: nat, p: nat, q: nat, sp: nat, sq: nat) {
    ghost predicate Valid() { 0 < c && 0 < p <= h && 0 < q <= w && 0 < sp && 0 < sq }

    function HOut(): nat
      requires Valid()
    {
      DivNonNegative(h - p, sp);
      (h - p) / sp + 1
    }

    function WOut(): nat
      requires Valid()
    {
      DivNonNegative(w - q, sq);
      (w - q) / sq + 1
    }

    function Taps(): nat { c * p * q }

    function Plane(): nat
      requires Valid()
    {
      HOut() * WOut()
    }
  }

  /** Where in the input tap (cc, pp, qq) of output pixel (hh, ww) lies, and where in the weights that of filter ff. */
  function InputIndex(k: Conv, hh: nat, ww: nat, cc: nat, pp: nat, qq: nat): nat {
    cc * (k.h * k.w) + (hh * k.sp + pp) * k.w + (ww * k.sq + qq)
  }

  function WeightIndex(k: Conv, ff: nat, cc: nat, pp: nat, qq: nat): nat {
    ff * k.Taps() + (cc * (k.p * k.q) + pp * k.q + qq)
  }

  function TapTerm<E>(r: Ring<E>, k: Conv, a: seq<E>, b: seq<E>, ff: nat, hh: nat, ww: nat, cc: nat, pp: nat,
                      qq: nat): E {
    r.mul(Element(r, a)(InputIndex(k, hh, ww, cc, pp, qq)), Element(r, b)(WeightIndex(k, ff, cc, pp, qq)))
  }

  /** The window of one output pixel: the sum over channels, window rows and window columns. */
  function Window<E>(r: Ring<E>, k: Conv, a: seq<E>, b: seq<E>, ff: nat, hh: nat, ww: nat): E {
    Sum(r, (cc: nat) => ChannelSum(r, k, a, b, ff, hh, ww, cc), k.c)
  }

  function ChannelSum<E>(r: Ring<E>, k: Conv, a: seq<E>, b: seq<E>, ff: nat, hh: nat, ww: nat, cc: nat): E {
    Sum(r, (pp: nat) => RowSum(r, k, a, b, ff, hh, ww, cc, pp), k.p)
  }

  function RowSum<E>(r: Ring<E>, k: Conv, a: seq<E>, b: seq<E>, ff: nat, hh: nat, ww: nat, cc: nat, pp: nat): E {
    Sum(r, (qq: nat) => TapTerm(r, k, a, b, ff, hh, ww, cc, pp, qq), k.q)
  }

  function Pixel<E>(r: Ring<E>, k: Conv, a: seq<E>, b: seq<E>, bias: Option<seq<E>>, ff: nat, hh: nat, ww: nat): E {
    var sum := Window(r, k, a, b, ff, hh, ww);
    if bias.Some? then r.add(sum, Element(r, bias.value)(ff)) else sum
  }

  /** The taps in the order they are added: columns, then rows, then channels. */
  ghost function Tap<E>(r: Ring<E>, k: Conv, a: seq<E>, b: seq<E>, ff: nat, hh: nat, ww: nat): nat -> E
    requires k.p > 0 && k.q > 0
  {
    (t: nat) => TapTerm(r, k, a, b, ff, hh, ww, Quo(Quo(t, k.q), k.p), Rem(Quo(t, k.q), k.p), Rem(t, k.q))
  }

  function TapNumber(k: Conv, cc: nat, pp: nat, qq: nat): nat { (cc * k.p + pp) * k.q + qq }

  lemma TapAt<E>(r: Ring<E>, k: Conv, a: seq<E>, b: seq<E>, ff: nat, hh: nat, ww: nat, cc: nat, pp: nat, qq: nat)
    requires pp < k.p && qq < k.q
    ensures Tap(r, k, a, b, ff, hh, ww)(TapNumber(k, cc, pp, qq)) == TapTerm(r, k, a, b, ff, hh, ww, cc, pp, qq)
  {
    Digits((cc * k.p + pp) * k.q + qq, k.q, cc * k.p + pp, qq);
    Digits(cc * k.p + pp, k.p, cc, pp);
  }

  /** One sum instead of three. */
  lemma WindowIsFlat<E(!new)>(r: Ring<E>, k: Conv, a: seq<E>, b: seq<E>, ff: nat, hh: nat, ww: nat)
    requires Lawful(r) && k.p > 0 && k.q > 0
    ensures Window(r, k, a, b, ff, hh, ww) == Sum(r, Tap(r, k, a, b, ff, hh, ww), k.Taps())
  {
    hide Tap, ChannelSum, Lawful, Sum;
    var g := Tap(r, k, a, b, ff, hh, ww);
    var row := (i: nat) => Sum(r, (qq: nat) => g(i * k.q + qq), k.q);
    SumRows(r, g, k.c * k.p, k.q);
    SumRows(r, row, k.c, k.p);
    ChannelsAreFlat(r, k, a, b, ff, hh, ww, row);
  }

  lemma ChannelsAreFlat<E(!new)>(r: Ring<E>, k: Conv, a: seq<E>, b: seq<E>, ff: nat, hh: nat, ww: nat, row: nat -> E)
    requires k.p > 0 && k.q > 0
    requires forall i: nat :: row(i) == Sum(r, (qq: nat) => Tap(r, k, a, b, ff, hh, ww)(i * k.q + qq), k.q)
    ensures Sum(r, (cc: nat) => ChannelSum(r, k, a, b, ff, hh, ww, cc), k.c) ==
              Sum(r, (cc: nat) => Sum(r, (pp: nat) => row(cc * k.p + pp), k.p), k.c)
  {
    hide Tap, ChannelSum;
    var column := (cc: nat) => Sum(r, (pp: nat) => row(cc * k.p + pp), k.p);
    forall cc: nat ensures ChannelSum(r, k, a, b, ff, hh, ww, cc) == column(cc) {
      ChannelIsFlat(r, k, a, b, ff, hh, ww, cc, row);
    }
    SumSame(r, (cc: nat) => ChannelSum(r, k, a, b, ff, hh, ww, cc), column, k.c);
  }

  lemma ChannelIsFlat<E(!new)>(r: Ring<E>, k: Conv, a: seq<E>, b: seq<E>, ff: nat, hh: nat, ww: nat, cc: nat,
                               row: nat -> E)
    requires k.p > 0 && k.q > 0
    requires forall i: nat :: row(i) == Sum(r, (qq: nat) => Tap(r, k, a, b, ff, hh, ww)(i * k.q + qq), k.q)
    ensures ChannelSum(r, k, a, b, ff, hh, ww, cc) == Sum(r, (pp: nat) => row(cc * k.p + pp), k.p)
  {
    hide Tap, RowSum;
    forall pp: nat {:trigger RowSum(r, k, a, b, ff, hh, ww, cc, pp)} | pp < k.p
      ensures RowSum(r, k, a, b, ff, hh, ww, cc, pp) == row(cc * k.p + pp)
    {
      RowIsFlat(r, k, a, b, ff, hh, ww, cc, pp);
    }
    SumSame(r, (pp: nat) => RowSum(r, k, a, b, ff, hh, ww, cc, pp), (pp: nat) => row(cc * k.p + pp), k.p);
  }

  lemma RowIsFlat<E(!new)>(r: Ring<E>, k: Conv, a: seq<E>, b: seq<E>, ff: nat, hh: nat, ww: nat, cc: nat, pp: nat)
    requires pp < k.p && k.q > 0
    ensures RowSum(r, k, a, b, ff, hh, ww, cc, pp) ==
              Sum(r, (qq: nat) => Tap(r, k, a, b, ff, hh, ww)((cc * k.p + pp) * k.q + qq), k.q)
  {
    hide Tap, TapTerm;
    forall qq: nat | qq < k.q
      ensures TapTerm(r, k, a, b, ff, hh, ww, cc, pp, qq) == Tap(r, k, a, b, ff, hh, ww)((cc * k.p + pp) * k.q + qq)
    {
      TapAt(r, k, a, b, ff, hh, ww, cc, pp, qq);
    }
    SumSame(r, (qq: nat) => TapTerm(r, k, a, b, ff, hh, ww, cc, pp, qq),
            (qq: nat) => Tap(r, k, a, b, ff, hh, ww)((cc * k.p + pp) * k.q + qq), k.q);
  }

  /* ---- The streams ---- */

  /** The whole input and all weights are there, within the address space. */
  ghost predicate Operands<E>(k: Conv, a: Source<E>, b: Source<E>, bias: Option<seq<E>>) {
    && k.Valid() && Placed(a) && Placed(b)
    && k.c * (k.h * k.w) <= |a.data| && k.f * k.Taps() <= |b.data| && (bias.Some? ==> k.f <= |bias.value|)
  }

  function NestA(k: Conv): seq<Level> { [Level(k.q, 4), Level(k.p, k.w * 4), Level(k.c, k.h * k.w * 4)] }

  function NestB(k: Conv): seq<Level> { [Level(UNROLL, k.Taps() * 4), Level(k.Taps(), 4)] }

  /** Where the window of a pixel starts. */
  function Corner(k: Conv, hh: nat, ww: nat): nat { hh * k.sp * k.w + ww * k.sq }

  ghost function StreamA<E>(k: Conv, a: Source<E>, hh: nat, ww: nat): Stream
  {
    Stream(NestA(k), UNROLL, a.base + 4 * Corner(k, hh, ww))
  }

  ghost function StreamB<E>(k: Conv, b: Source<E>, ff: nat): Stream
  {
    Stream(NestB(k), 1, b.base + 4 * (ff * k.Taps()))
  }

  lemma NestsAreLoops<E>(k: Conv, a: Source<E>, b: Source<E>, bias: Option<seq<E>>, hh: nat, ww: nat, ff: nat)
    requires Operands(k, a, b, bias) && UNROLL <= k.f
    ensures Loops(NestA(k)) && Loops(NestB(k)) && Positive(NestA(k)) && Positive(NestB(k)) && 0 < k.Taps()
    ensures Length(StreamA(k, a, hh, ww)) == Length(StreamB(k, b, ff)) == k.Taps() * UNROLL
  {
    hide k.Taps, Size;
    CountsFit(k, a, b, bias);
    NestSizes(k);
  }

  /** All loop counts are counts of elements of arrays that fit the address space. */
  lemma CountsFit<E>(k: Conv, a: Source<E>, b: Source<E>, bias: Option<seq<E>>)
    requires Operands(k, a, b, bias) && UNROLL <= k.f
    ensures 0 < k.c < WORD && 0 < k.p < WORD && 0 < k.q < WORD && 0 < k.Taps() < WORD
  {
    MulPositive(k.c, k.p);
    MulPositive(k.c * k.p, k.q);
    assert 0 < k.Taps();
    hide k.Taps;
    MulMono(1, k.f, k.Taps());
    FactorsFit(k.c, k.h, k.w, |a.data|);
  }

  lemma FactorsFit(c: nat, h: nat, w: nat, n: nat)
    requires 0 < c && 0 < h && 0 < w && c * (h * w) <= n
    ensures c <= n && h <= n && w <= n
  {
    MulMono(1, w, h); MulMono(1, h, w);
    MulMono(1, h * w, c); MulMono(1, c, h * w);
  }

  lemma NestSizes(k: Conv)
    ensures Size(NestA(k)) == k.Taps() && Size(NestB(k)) == UNROLL * k.Taps()
  {
    assert Size(NestA(k)[1..][1..][1..]) == 1 && Size(NestA(k)[1..][1..]) == k.c && Size(NestA(k)[1..]) == k.p * k.c;
    assert Size(NestB(k)[1..][1..]) == 1 && Size(NestB(k)[1..]) == k.Taps();
    MulAssoc(k.q, k.p, k.c);
    ThreeFactors(k.c, k.p, k.q);
  }

  lemma ThreeFactors(c: nat, p: nat, q: nat)
    ensures q * (p * c) == c * p * q
  {
  }

  /** A tap's indices, and that they are in range. */
  lemma TapIndices(k: Conv, t: nat)
    requires k.Valid() && t < k.Taps()
    ensures var i := Quo(t, k.q); t == i * k.q + Rem(t, k.q) && i == Quo(i, k.p) * k.p + Rem(i, k.p) &&
                                  Quo(i, k.p) < k.c
  {
    var i := Quo(t, k.q);
    NextDigit(t, k.q);
    NextDigit(i, k.p);
    if i >= k.c * k.p { MulMono(k.c * k.p, i, k.q); }
    if Quo(i, k.p) >= k.c { MulMono(k.c, Quo(i, k.p), k.p); }
  }

  lemma OffsetA(k: Conv, hh: nat, ww: nat, t: nat, u: nat)
    requires k.Valid() && t < k.Taps() && u < UNROLL && Positive(NestA(k))
    ensures var i := Quo(t, k.q);
            4 * Corner(k, hh, ww) + Offset(NestA(k), Quo(t * UNROLL + u, UNROLL)) ==
            4 * InputIndex(k, hh, ww, Quo(i, k.p), Rem(i, k.p), Rem(t, k.q))
  {
    var i, nest := Quo(t, k.q), NestA(k);
    Digits(t * UNROLL + u, UNROLL, t, u);
    TapIndices(k, t);
    OffsetOf(nest, Rem(t, k.q), i);
    OffsetOf(nest[1..], Rem(i, k.p), Quo(i, k.p));
    OffsetOf(nest[1..][1..], Quo(i, k.p), 0);
    assert nest[1..][1..][1..] == [];
    hide Quo, Rem, Offset;
    Distribute(hh * k.sp, Rem(i, k.p), k.w);
    MulAssoc(Rem(i, k.p), k.w, 4);
    MulAssoc(Quo(i, k.p), k.h * k.w, 4);
  }

  lemma OffsetB(k: Conv, ff: nat, t: nat, u: nat)
    requires k.Valid() && t < k.Taps() && u < UNROLL && Positive(NestB(k))
    ensures var i := Quo(t, k.q);
            4 * (ff * k.Taps()) + Offset(NestB(k), Quo(t * UNROLL + u, 1)) ==
            4 * WeightIndex(k, ff + u, Quo(i, k.p), Rem(i, k.p), Rem(t, k.q))
  {
    var i, nest := Quo(t, k.q), NestB(k);
    Digits(t * UNROLL + u, 1, t * UNROLL + u, 0);
    TapIndices(k, t);
    OffsetOf(nest, u, t);
    OffsetOf(nest[1..], t, 0);
    assert nest[1..][1..] == [];
    hide Quo, Rem, Offset;
    Distribute(Quo(i, k.p) * k.p, Rem(i, k.p), k.q);
    MulAssoc(Quo(i, k.p), k.p, k.q);
    Distribute(ff, u, k.Taps());
    MulAssoc(u, k.Taps(), 4);
  }

  /** The window of an output pixel lies inside the input. */
  lemma InputInRange(k: Conv, hh: nat, ww: nat, cc: nat, pp: nat, qq: nat)
    requires k.Valid() && hh < k.HOut() && ww < k.WOut() && cc < k.c && pp < k.p && qq < k.q
    ensures InputIndex(k, hh, ww, cc, pp, qq) < k.c * (k.h * k.w)
  {
    MulMono(hh, (k.h - k.p) / k.sp, k.sp);
    MulMono(ww, (k.w - k.q) / k.sq, k.sq);
    MulStep(hh * k.sp + pp, k.h, k.w);
    MulStep(cc, k.c, k.h * k.w);
  }

  lemma WeightInRange(k: Conv, ff: nat, cc: nat, pp: nat, qq: nat)
    requires ff < k.f && cc < k.c && pp < k.p && qq < k.q
    ensures WeightIndex(k, ff, cc, pp, qq) < k.f * k.Taps()
  {
    MulStep(pp, k.p, k.q);
    MulStep(cc, k.c, k.p * k.q);
    MulAssoc(k.c, k.p, k.q);
    MulStep(ff, k.f, k.Taps());
  }

  /** What the streams feed accumulator u is the taps of filter ff + u. */
  lemma PixelProducts<E(!new)>(r: Ring<E>, k: Conv, a: Source<E>, b: Source<E>, bias: Option<seq<E>>, ff: nat, hh: nat,
                               ww: nat, u: nat)
    requires Operands(k, a, b, bias) && ff + UNROLL <= k.f && hh < k.HOut() && ww < k.WOut() && u < UNROLL
    requires Positive(NestA(k)) && Positive(NestB(k))
    ensures Fold(r, r.zero, Products(r, a, StreamA(k, a, hh, ww), b, StreamB(k, b, ff), 0, u, UNROLL), k.Taps()) ==
            Sum(r, Tap(r, k, a.data, b.data, ff + u, hh, ww), k.Taps())
  {
    var p := Products(r, a, StreamA(k, a, hh, ww), b, StreamB(k, b, ff), 0, u, UNROLL);
    var g := Tap(r, k, a.data, b.data, ff + u, hh, ww);
    forall t: nat | t < k.Taps() ensures p(t) == g(t) {
      OneTap(r, k, a, b, bias, ff, hh, ww, u, t);
    }
    hide Products, Tap;
    FoldSame(r, r.zero, p, g, k.Taps());
    SumIsFold(r, g, k.Taps());
  }

  lemma OneTap<E(!new)>(r: Ring<E>, k: Conv, a: Source<E>, b: Source<E>, bias: Option<seq<E>>, ff: nat, hh: nat,
                        ww: nat, u: nat, t: nat)
    requires Operands(k, a, b, bias) && ff + UNROLL <= k.f && hh < k.HOut() && ww < k.WOut() && u < UNROLL &&
             t < k.Taps()
    requires Positive(NestA(k)) && Positive(NestB(k))
    ensures Products(r, a, StreamA(k, a, hh, ww), b, StreamB(k, b, ff), 0, u, UNROLL)(t) ==
              Tap(r, k, a.data, b.data, ff + u, hh, ww)(t)
  {
    hide NestA, NestB, Element, InputIndex, WeightIndex, Offset, Quo, Rem, Fetch, Corner, Conv.Taps, Conv.HOut,
         Conv.WOut;
    var i, e := Quo(t, k.q), t * UNROLL + u;
    var cc, pp, qq := Quo(i, k.p), Rem(i, k.p), Rem(t, k.q);
    TapIndices(k, t);
    InputInRange(k, hh, ww, cc, pp, qq);
    WeightInRange(k, ff + u, cc, pp, qq);
    OffsetA(k, hh, ww, t, u);
    OffsetB(k, ff, t, u);
    DeliversElement(r, a, StreamA(k, a, hh, ww), e, InputIndex(k, hh, ww, cc, pp, qq));
    DeliversElement(r, b, StreamB(k, b, ff), e, WeightIndex(k, ff + u, cc, pp, qq));
    assert 0 + t * UNROLL + u == e;
  }

  /* ---- The code ---- */

  /** The flat result: filter after filter, row after row. */
  function Flat<E>(r: Ring<E>, k: Conv, a: seq<E>, b: seq<E>, bias: Option<seq<E>>): nat -> E
    requires k.Valid()
  {
    (x: nat) => if k.Plane() == 0 then r.zero
                else Pixel(r, k, a, b, bias, Quo(x, k.Plane()), Quo(Rem(x, k.Plane()), k.WOut()),
                           Rem(Rem(x, k.Plane()), k.WOut()))
  }

  /** A pixel's place in its plane. */
  function Pos(k: Conv, hh: nat, ww: nat): nat
    requires k.Valid()
  {
    hh * k.WOut() + ww
  }

  lemma PixelPlace(k: Conv, hh: nat, ww: nat)
    requires k.Valid() && hh < k.HOut() && ww < k.WOut()
    ensures Pos(k, hh, ww) < k.Plane()
  {
    MulStep(hh, k.HOut(), k.WOut());
  }

  lemma FlatAt<E>(r: Ring<E>, k: Conv, a: seq<E>, b: seq<E>, bias: Option<seq<E>>, ff: nat, hh: nat, ww: nat)
    requires k.Valid() && hh < k.HOut() && ww < k.WOut()
    ensures Flat(r, k, a, b, bias)(ff * k.Plane() + Pos(k, hh, ww)) == Pixel(r, k, a, b, bias, ff, hh, ww)
  {
    PixelPlace(k, hh, ww);
    Digits(ff * k.Plane() + Pos(k, hh, ww), k.Plane(), ff, Pos(k, hh, ww));
    Digits(Pos(k, hh, ww), k.WOut(), hh, ww);
    hide Conv.HOut, Conv.WOut, Conv.Plane, Pixel;
  }

  /** The four accumulators of one pixel, and the bias. */
  method Accumulate<E(!new)>(r: Ring<E>, k: Conv, dm0: Mover, dm1: Mover, a: Source<E>, b: Source<E>,
                             bias: Option<seq<E>>,
                             ff: nat, hh: nat, ww: nat) returns (acc: seq<E>)
    requires Lawful(r) && dm0 != dm1 && Operands(k, a, b, bias) && ff + UNROLL <= k.f && hh < k.HOut() && ww < k.WOut()
    requires dm0.Configured(NestA(k)) && dm0.repeat == UNROLL - 1 && dm1.Configured(NestB(k)) && dm1.repeat == 0
    modifies dm0`dim, dm0`ptr, dm0`idx, dm0`rep, dm0`live, dm1`dim, dm1`ptr, dm1`idx, dm1`rep, dm1`live
    ensures dm0.Configured(NestA(k)) && dm1.Configured(NestB(k))
    ensures |acc| == UNROLL && forall u: nat :: u < UNROLL ==>
              acc[u] == Pixel(r, k, a.data, b.data, bias, ff + u, hh, ww)
  {
    NestsAreLoops(k, a, b, bias, hh, ww, ff);
    hide NestA, NestB, Loops, Positive, Reached, Conv.Taps, Conv.HOut, Conv.WOut, Corner, Lawful, Products, Fetch,
         Operands, Pixel, Length, Size;
    dm0.Read(NestA(k), a.base + 4 * Corner(k, hh, ww));
    dm1.Read(NestB(k), b.base + 4 * (ff * k.Taps()));
    ghost var s0, s1 := StreamA(k, a, hh, ww), StreamB(k, b, ff);
    var zeros := [r.zero, r.zero, r.zero, r.zero];
    acc := Region(r, dm0, a, s0, dm1, b, s1, zeros, k.Taps(), 0);
    PixelDone(r, k, a, b, bias, ff, hh, ww, zeros, acc);
    if bias.Some? { acc := Biased(r, k, bias.value, ff, acc); }
  }

  lemma PixelDone<E(!new)>(r: Ring<E>, k: Conv, a: Source<E>, b: Source<E>, bias: Option<seq<E>>, ff: nat, hh: nat,
                           ww: nat,
                           zeros: seq<E>, acc: seq<E>)
    requires Lawful(r) && Operands(k, a, b, bias) && ff + UNROLL <= k.f && hh < k.HOut() && ww < k.WOut()
    requires Positive(NestA(k)) && Positive(NestB(k)) && |acc| == |zeros| == UNROLL
    requires forall u: nat :: u < UNROLL ==> zeros[u] == r.zero
    requires forall u: nat :: u < UNROLL ==>
               acc[u] == Fold(r, zeros[u], Products(r, a, StreamA(k, a, hh, ww), b, StreamB(k, b, ff), 0, u, UNROLL),
                              k.Taps())
    ensures forall u: nat :: u < UNROLL ==> acc[u] == Window(r, k, a.data, b.data, ff + u, hh, ww)
    ensures bias.None? ==> forall u: nat :: u < UNROLL ==> acc[u] == Pixel(r, k, a.data, b.data, bias, ff + u, hh, ww)
    ensures bias.Some? ==> ff + UNROLL <= |bias.value|
    ensures bias.Some? ==> forall u: nat :: u < UNROLL ==>
              r.add(acc[u], bias.value[ff + u]) == Pixel(r, k, a.data, b.data, bias, ff + u, hh, ww)
  {
    hide NestA, NestB, Positive, Conv.Taps, Conv.HOut, Conv.WOut, Lawful, Products, Tap, Window;
    forall u: nat | u < UNROLL ensures acc[u] == Window(r, k, a.data, b.data, ff + u, hh, ww) {
      PixelProducts(r, k, a, b, bias, ff, hh, ww, u);
      WindowIsFlat(r, k, a.data, b.data, ff + u, hh, ww);
    }
  }

  method Biased<E>(r: Ring<E>, k: Conv, bias: seq<E>, ff: nat, acc: seq<E>) returns (acc': seq<E>)
    requires ff + |acc| <= k.f <= |bias|
    ensures |acc'| == |acc| && forall u: nat :: u < |acc| ==> acc'[u] == r.add(acc[u], bias[ff + u])
  {
    acc' := seq(|acc|, u requires 0 <= u < |acc| => r.add(acc[u], bias[ff + u]));
  }

  /** Element `pos` of row `row` in an array of rows of o. */
  function Cell(row: nat, o: nat, pos: nat): nat { MulMono(0, row, o); row * o + pos }

  /** The four stores of a pixel, a plane apart. */
  method StorePixel<E>(r: Ring<E>, k: Conv, ghost a: seq<E>, ghost b: seq<E>, ghost bias: Option<seq<E>>, y: array<E>,
                       ff: nat, hh: nat, ww: nat, acc: seq<E>, ghost was: seq<E>)
    requires k.Valid() && ff + |acc| <= k.f && hh < k.HOut() && ww < k.WOut()
    requires Covers(k.f, k.Plane(), Flat(r, k, a, b, bias), was, y[..], ff, |acc|, Pos(k, hh, ww), 0, 1)
    requires forall u: nat :: u < |acc| ==> acc[u] == Pixel(r, k, a, b, bias, ff + u, hh, ww)
    modifies y
    ensures Covers(k.f, k.Plane(), Flat(r, k, a, b, bias), was, y[..], ff, |acc|, Pos(k, hh, ww + 1), 0, 0)
  {
    PixelPlace(k, hh, ww);
    PosCarries(k, hh, ww);
    PixelsAreFlat(r, k, a, b, bias, ff, hh, ww, acc);
    hide *;
    StoreColumn(k.f, k.Plane(), Flat(r, k, a, b, bias), y, ff, Pos(k, hh, ww), acc, was);
  }

  lemma PixelsAreFlat<E>(r: Ring<E>, k: Conv, a: seq<E>, b: seq<E>, bias: Option<seq<E>>, ff: nat, hh: nat, ww: nat,
                         acc: seq<E>)
    requires k.Valid() && hh < k.HOut() && ww < k.WOut()
    requires forall u: nat :: u < |acc| ==> acc[u] == Pixel(r, k, a, b, bias, ff + u, hh, ww)
    ensures forall u: nat :: u < |acc| ==> acc[u] == Flat(r, k, a, b, bias)(Cell(ff + u, k.Plane(), Pos(k, hh, ww)))
  {
    hide Pixel, Flat, Conv.HOut, Conv.WOut, Conv.Plane, Pos;
    forall u: nat | u < |acc| ensures acc[u] == Flat(r, k, a, b, bias)(Cell(ff + u, k.Plane(), Pos(k, hh, ww))) {
      FlatAt(r, k, a, b, bias, ff + u, hh, ww);
    }
  }

  /** Stores a plane apart: one element in each of |acc| rows. */
  method StoreColumn<E>(m: nat, o: nat, ghost out: nat -> E, y: array<E>, first: nat, pos: nat, acc: seq<E>,
                        ghost was: seq<E>)
    requires pos < o && first + |acc| <= m && Covers(m, o, out, was, y[..], first, |acc|, pos, 0, 1)
    requires forall u: nat :: u < |acc| ==> acc[u] == out(Cell(first + u, o, pos))
    modifies y
    ensures Covers(m, o, out, was, y[..], first, |acc|, pos + 1, 0, 0)
  {
    assert m * o <= y.Length;
    hide Covers;
    var u := 0;
    while u < |acc|
      invariant u <= |acc| && Covers(m, o, out, was, y[..], first, |acc|, pos, u, 1)
    {
      MulStep(first + u, m, o);
      MulMono(0, first + u, o);
      ghost var y0 := y[..];
      y[(first + u) * o + pos] := acc[u];
      CoverRow(m, o, out, was, y0, y[..], first, |acc|, pos, u, [acc[u]]);
      u := u + 1;
    }
    StripDone(m, o, out, was, y[..], first, |acc|, pos, 1, pos + 1);
  }

  /** One pixel of one filter, by plain loops: channels, rows, columns. */
  method Scalar<E(!new)>(r: Ring<E>, k: Conv, a: seq<E>, b: seq<E>, bias: Option<seq<E>>, ff: nat, hh: nat, ww: nat)
    returns (v: E)
    requires k.Valid() && ff < k.f && hh < k.HOut() && ww < k.WOut() && Lawful(r)
    requires k.c * (k.h * k.w) <= |a| && k.f * k.Taps() <= |b| && (bias.Some? ==> k.f <= |bias.value|)
    ensures v == Pixel(r, k, a, b, bias, ff, hh, ww)
  {
    TapsIs(k);
    hide Conv.HOut, Conv.WOut, InputIndex, WeightIndex, Tap, Lawful, Conv.Taps, TapNumber, Window;
    var sum := r.zero;
    var cc := 0;
    while cc < k.c
      invariant cc <= k.c && sum == Sum(r, Tap(r, k, a, b, ff, hh, ww), TapNumber(k, cc, 0, 0))
    {
      var pp := 0;
      while pp < k.p
        invariant pp <= k.p && sum == Sum(r, Tap(r, k, a, b, ff, hh, ww), TapNumber(k, cc, pp, 0))
      {
        sum := WindowRow(r, k, a, b, ff, hh, ww, cc, pp, sum);
        pp := pp + 1;
      }
      TapCarries(k, cc, pp);
      cc := cc + 1;
    }
    WindowIsFlat(r, k, a, b, ff, hh, ww);
    v := if bias.Some? then r.add(sum, bias.value[ff]) else sum;
  }

  lemma TapsIs(k: Conv)
    ensures TapNumber(k, k.c, 0, 0) == k.Taps() && TapNumber(k, 0, 0, 0) == 0
  {
  }

  lemma TapCarries(k: Conv, cc: nat, pp: nat)
    ensures pp == k.p ==> TapNumber(k, cc, pp, 0) == TapNumber(k, cc + 1, 0, 0)
    ensures TapNumber(k, cc, pp, k.q) == TapNumber(k, cc, pp + 1, 0)
  {
    Distribute(cc, 1, k.p);
    Distribute(cc * k.p + pp, 1, k.q);
  }

  lemma TapFollows(k: Conv, cc: nat, pp: nat, qq: nat)
    ensures TapNumber(k, cc, pp, qq + 1) == TapNumber(k, cc, pp, qq) + 1
  {
  }

  method WindowRow<E>(r: Ring<E>, k: Conv, a: seq<E>, b: seq<E>, ff: nat, hh: nat, ww: nat, cc: nat, pp: nat, start: E)
    returns (sum: E)
    requires k.Valid() && ff < k.f && hh < k.HOut() && ww < k.WOut() && cc < k.c && pp < k.p
    requires k.c * (k.h * k.w) <= |a| && k.f * k.Taps() <= |b|
    requires start == Sum(r, Tap(r, k, a, b, ff, hh, ww), TapNumber(k, cc, pp, 0))
    ensures sum == Sum(r, Tap(r, k, a, b, ff, hh, ww), TapNumber(k, cc, pp + 1, 0))
  {
    TapCarries(k, cc, pp);
    hide Conv.HOut, Conv.WOut, InputIndex, WeightIndex, Tap, Conv.Taps, TapNumber;
    sum := start;
    var qq := 0;
    while qq < k.q
      invariant qq <= k.q && sum == Sum(r, Tap(r, k, a, b, ff, hh, ww), TapNumber(k, cc, pp, qq))
    {
      var inAt, wtAt := InputIndex(k, hh, ww, cc, pp, qq), WeightIndex(k, ff, cc, pp, qq);
      ScalarTap(r, k, a, b, ff, hh, ww, cc, pp, qq);
      sum := r.add(sum, r.mul(a[inAt], b[wtAt]));
      qq := qq + 1;
    }
  }

  /** What one turn of the innermost loop adds is the next tap. */
  lemma ScalarTap<E>(r: Ring<E>, k: Conv, a: seq<E>, b: seq<E>, ff: nat, hh: nat, ww: nat, cc: nat, pp: nat, qq: nat)
    requires k.Valid() && ff < k.f && hh < k.HOut() && ww < k.WOut() && cc < k.c && pp < k.p && qq < k.q
    requires k.c * (k.h * k.w) <= |a| && k.f * k.Taps() <= |b|
    ensures InputIndex(k, hh, ww, cc, pp, qq) < |a| && WeightIndex(k, ff, cc, pp, qq) < |b|
    ensures var t, g := TapNumber(k, cc, pp, qq), Tap(r, k, a, b, ff, hh, ww);
            TapNumber(k, cc, pp, qq + 1) == t + 1 &&
              Sum(r, g, t + 1) == r.add(Sum(r, g, t),
                                        r.mul(a[InputIndex(k, hh, ww, cc, pp, qq)], b[WeightIndex(k, ff, cc, pp, qq)]))
  {
    hide InputIndex, WeightIndex, Tap, TapTerm, Conv.HOut, Conv.WOut, Conv.Taps, TapNumber;
    TapFollows(k, cc, pp, qq);
    InputInRange(k, hh, ww, cc, pp, qq);
    WeightInRange(k, ff, cc, pp, qq);
    TapAt(r, k, a, b, ff, hh, ww, cc, pp, qq);
    TermAt(r, k, a, b, ff, hh, ww, cc, pp, qq);
  }

  lemma TermAt<E>(r: Ring<E>, k: Conv, a: seq<E>, b: seq<E>, ff: nat, hh: nat, ww: nat, cc: nat, pp: nat, qq: nat)
    requires InputIndex(k, hh, ww, cc, pp, qq) < |a| && WeightIndex(k, ff, cc, pp, qq) < |b|
    ensures TapTerm(r, k, a, b, ff, hh, ww, cc, pp, qq) ==
              r.mul(a[InputIndex(k, hh, ww, cc, pp, qq)], b[WeightIndex(k, ff, cc, pp, qq)])
  {
    hide InputIndex, WeightIndex;
  }

  /** All output pixels of four filters, or of one left over. */
  method Filters<E(!new)>(r: Ring<E>, k: Conv, dm0: Mover, dm1: Mover, a: Source<E>, b: Source<E>, bias: Option<seq<E>>,
                          y: array<E>,
                          ff: nat, streamed: bool, ghost was: seq<E>)
    requires Lawful(r) && dm0 != dm1 && Operands(k, a, b, bias) && ff + (if streamed then UNROLL else 1) <= k.f
    requires dm0.Configured(NestA(k)) && dm0.repeat == UNROLL - 1 && dm1.Configured(NestB(k)) && dm1.repeat == 0
    requires Covers(k.f, k.Plane(), Flat(r, k, a.data, b.data, bias), was, y[..], ff, 0, 0, 0, 0)
    modifies y, dm0`dim, dm0`ptr, dm0`idx, dm0`rep, dm0`live, dm1`dim, dm1`ptr, dm1`idx, dm1`rep, dm1`live
    ensures dm0.Configured(NestA(k)) && dm1.Configured(NestB(k))
    ensures Covers(k.f, k.Plane(), Flat(r, k, a.data, b.data, bias), was, y[..], ff + (if streamed then UNROLL else 1),
                   0, 0, 0, 0)
  {
    PlaneIs(k);
    assert UNROLL == 4;
    hide *;
    var n := if streamed then UNROLL else 1;
    var hh := 0;
    NothingYet(k.f, k.Plane(), Flat(r, k, a.data, b.data, bias), was, y[..], ff, 0, 0, n, 0);
    while hh < k.HOut()
      invariant hh <= k.HOut() && dm0.Configured(NestA(k)) && dm1.Configured(NestB(k))
      invariant Covers(k.f, k.Plane(), Flat(r, k, a.data, b.data, bias), was, y[..], ff, n, Pos(k, hh, 0), 0, 0)
    {
      OutputRow(r, k, dm0, dm1, a, b, bias, y, ff, hh, streamed, was);
      hh := hh + 1;
    }
    RowsDone(k.f, k.Plane(), Flat(r, k, a.data, b.data, bias), was, y[..], ff, n, ff + n);
  }

  lemma PlaneIs(k: Conv)
    requires k.Valid()
    ensures k.Plane() == Pos(k, k.HOut(), 0) && Pos(k, 0, 0) == 0 && 0 < k.HOut() && 0 < k.WOut() && 0 < k.Plane()
  {
    MulPositive(k.HOut(), k.WOut());
  }

  lemma PosCarries(k: Conv, hh: nat, ww: nat)
    requires k.Valid()
    ensures Pos(k, hh, ww + 1) == Pos(k, hh, ww) + 1 && Pos(k, hh, k.WOut()) == Pos(k, hh + 1, 0)
  {
    Distribute(hh, 1, k.WOut());
  }

  method OutputRow<E(!new)>(r: Ring<E>, k: Conv, dm0: Mover, dm1: Mover, a: Source<E>, b: Source<E>,
                            bias: Option<seq<E>>, y: array<E>,
                            ff: nat, hh: nat, streamed: bool, ghost was: seq<E>)
    requires Lawful(r) && dm0 != dm1 && Operands(k, a, b, bias) && ff + (if streamed then UNROLL else 1) <= k.f &&
             hh < k.HOut()
    requires dm0.Configured(NestA(k)) && dm0.repeat == UNROLL - 1 && dm1.Configured(NestB(k)) && dm1.repeat == 0
    requires Covers(k.f, k.Plane(), Flat(r, k, a.data, b.data, bias), was, y[..], ff, if streamed then UNROLL else 1,
                    Pos(k, hh, 0), 0, 0)
    modifies y, dm0`dim, dm0`ptr, dm0`idx, dm0`rep, dm0`live, dm1`dim, dm1`ptr, dm1`idx, dm1`rep, dm1`live
    ensures dm0.Configured(NestA(k)) && dm1.Configured(NestB(k))
    ensures Covers(k.f, k.Plane(), Flat(r, k, a.data, b.data, bias), was, y[..], ff, if streamed then UNROLL else 1,
                   Pos(k, hh + 1, 0), 0, 0)
  {
    OperandSizes(k, a, b, bias);
    PosCarries(k, hh, 0);
    hide *;
    var n := if streamed then UNROLL else 1;
    var ww := 0;
    while ww < k.WOut()
      invariant ww <= k.WOut() && dm0.Configured(NestA(k)) && dm1.Configured(NestB(k))
      invariant Covers(k.f, k.Plane(), Flat(r, k, a.data, b.data, bias), was, y[..], ff, n, Pos(k, hh, ww), 0, 0)
    {
      var acc := Values(r, k, dm0, dm1, a, b, bias, ff, hh, ww, streamed);
      NothingYet(k.f, k.Plane(), Flat(r, k, a.data, b.data, bias), was, y[..], ff, n, Pos(k, hh, ww), n, 1);
      StorePixel(r, k, a.data, b.data, bias, y, ff, hh, ww, acc, was);
      ww := ww + 1;
    }
  }

  method Values<E(!new)>(r: Ring<E>, k: Conv, dm0: Mover, dm1: Mover, a: Source<E>, b: Source<E>, bias: Option<seq<E>>,
                         ff: nat, hh: nat, ww: nat, streamed: bool) returns (acc: seq<E>)
    requires Lawful(r) && dm0 != dm1 && Operands(k, a, b, bias) && ff + (if streamed then UNROLL else 1) <= k.f
    requires hh < k.HOut() && ww < k.WOut()
    requires dm0.Configured(NestA(k)) && dm0.repeat == UNROLL - 1 && dm1.Configured(NestB(k)) && dm1.repeat == 0
    modifies dm0`dim, dm0`ptr, dm0`idx, dm0`rep, dm0`live, dm1`dim, dm1`ptr, dm1`idx, dm1`rep, dm1`live
    ensures dm0.Configured(NestA(k)) && dm1.Configured(NestB(k))
    ensures |acc| == (if streamed then UNROLL else 1)
    ensures forall u: nat :: u < |acc| ==> acc[u] == Pixel(r, k, a.data, b.data, bias, ff + u, hh, ww)
  {
    OperandSizes(k, a, b, bias);
    hide *;
    if streamed {
      acc := Accumulate(r, k, dm0, dm1, a, b, bias, ff, hh, ww);
    } else {
      var v := Scalar(r, k, a.data, b.data, bias, ff, hh, ww);
      acc := [v];
    }
  }

  lemma OperandSizes<E>(k: Conv, a: Source<E>, b: Source<E>, bias: Option<seq<E>>)
    requires Operands(k, a, b, bias)
    ensures k.Valid() && k.c * (k.h * k.w) <= |a.data| && k.f * k.Taps() <= |b.data| &&
            (bias.Some? ==> k.f <= |bias.value|)
  {
  }

  ghost predicate HoldsPixel<E>(r: Ring<E>, k: Conv, a: seq<E>, b: seq<E>, bias: Option<seq<E>>, y: seq<E>, ff: nat,
                                hh: nat, ww: nat)
    requires k.Valid()
  {
    var q := ff * k.Plane() + Pos(k, hh, ww);
    q < |y| && y[q] == Pixel(r, k, a, b, bias, ff, hh, ww)
  }

  /** The array holds every output pixel, filter after filter, and behind them what it held before. */
  ghost predicate HoldsConv<E>(r: Ring<E>, k: Conv, a: seq<E>, b: seq<E>, bias: Option<seq<E>>, y: seq<E>, was: seq<E>)
    requires k.Valid()
  {
    && |y| == |was| && k.f * k.Plane() <= |y| && y[k.f * k.Plane()..] == was[k.f * k.Plane()..]
    && forall ff: nat, hh: nat, ww: nat :: ff < k.f && hh < k.HOut() && ww < k.WOut() ==>
         HoldsPixel(r, k, a, b, bias, y, ff, hh, ww)
  }

  /**
    The convolution: all filters in groups of four, the rest one by one. The weights must come once
    each: that is how the kernel finds stream 1, and leaves it.
   */
  method ConvStreamed<E(!new)>(r: Ring<E>, k: Conv, dm0: Mover, dm1: Mover, a: Source<E>, b: Source<E>,
                               bias: Option<seq<E>>, y: array<E>)
    requires Lawful(r) && dm0 != dm1 && dm0.Wide() && dm1.Wide() && dm1.repeat == 0
    requires Operands(k, a, b, bias) && UNROLL <= k.f && k.f * k.Plane() <= y.Length
    modifies y, dm0, dm1
    ensures HoldsConv(r, k, a.data, b.data, bias, y[..], old(y[..])) && dm1.repeat == 0
  {
    ghost var was := y[..];
    NestsAreLoops(k, a, b, bias, 0, 0, 0);
    PlaneIs(k);
    NothingWritten(k.f, k.Plane(), Flat(r, k, a.data, b.data, bias), was);
    hide *;
    dm0.Loop(NestA(k));
    dm0.Repeat(UNROLL);
    dm1.Loop(NestB(k));
    Groups(r, k, dm0, dm1, a, b, bias, y, was);
    AllCovered(k.f, k.Plane(), Flat(r, k, a.data, b.data, bias), was, y[..], k.f);
    AllPixels(r, k, a.data, b.data, bias, y[..], was);
  }

  /** The loop over groups of four filters, then the loop over those past the last full group. */
  method Groups<E(!new)>(r: Ring<E>, k: Conv, dm0: Mover, dm1: Mover, a: Source<E>, b: Source<E>, bias: Option<seq<E>>,
                         y: array<E>, ghost was: seq<E>)
    requires Lawful(r) && dm0 != dm1 && Operands(k, a, b, bias)
    requires dm0.Configured(NestA(k)) && dm0.repeat == UNROLL - 1 && dm1.Configured(NestB(k)) && dm1.repeat == 0
    requires Covers(k.f, k.Plane(), Flat(r, k, a.data, b.data, bias), was, y[..], 0, 0, 0, 0, 0)
    modifies y, dm0`dim, dm0`ptr, dm0`idx, dm0`rep, dm0`live, dm1`dim, dm1`ptr, dm1`idx, dm1`rep, dm1`live
    ensures Covers(k.f, k.Plane(), Flat(r, k, a.data, b.data, bias), was, y[..], k.f, 0, 0, 0, 0)
  {
    OperandSizes(k, a, b, bias);
    var full, ff := k.f / UNROLL * UNROLL, 0;
    assert full <= k.f && full % 4 == 0 && UNROLL == 4;
    hide *;
    while ff < full
      invariant ff <= full && ff % 4 == 0
      invariant dm0.Configured(NestA(k)) && dm1.Configured(NestB(k))
      invariant Covers(k.f, k.Plane(), Flat(r, k, a.data, b.data, bias), was, y[..], ff, 0, 0, 0, 0)
    {
      Filters(r, k, dm0, dm1, a, b, bias, y, ff, true, was);
      ff := ff + UNROLL;
    }
    Leftover(r, k, dm0, dm1, a, b, bias, y, ff, was);
  }

  method Leftover<E(!new)>(r: Ring<E>, k: Conv, dm0: Mover, dm1: Mover, a: Source<E>, b: Source<E>,
                           bias: Option<seq<E>>, y: array<E>,
                           from: nat, ghost was: seq<E>)
    requires Lawful(r) && dm0 != dm1 && Operands(k, a, b, bias) && from <= k.f
    requires dm0.Configured(NestA(k)) && dm0.repeat == UNROLL - 1 && dm1.Configured(NestB(k)) && dm1.repeat == 0
    requires Covers(k.f, k.Plane(), Flat(r, k, a.data, b.data, bias), was, y[..], from, 0, 0, 0, 0)
    modifies y, dm0`dim, dm0`ptr, dm0`idx, dm0`rep, dm0`live, dm1`dim, dm1`ptr, dm1`idx, dm1`rep, dm1`live
    ensures Covers(k.f, k.Plane(), Flat(r, k, a.data, b.data, bias), was, y[..], k.f, 0, 0, 0, 0)
  {
    OperandSizes(k, a, b, bias);
    hide *;
    var ff := from;
    while ff < k.f
      invariant ff <= k.f
      invariant dm0.Configured(NestA(k)) && dm1.Configured(NestB(k))
      invariant Covers(k.f, k.Plane(), Flat(r, k, a.data, b.data, bias), was, y[..], ff, 0, 0, 0, 0)
    {
      Filters(r, k, dm0, dm1, a, b, bias, y, ff, false, was);
      ff := ff + 1;
    }
  }

  lemma AllPixels<E>(r: Ring<E>, k: Conv, a: seq<E>, b: seq<E>, bias: Option<seq<E>>, y: seq<E>, was: seq<E>)
    requires k.Valid() && k.f * k.Plane() <= |y| == |was| && y[k.f * k.Plane()..] == was[k.f * k.Plane()..]
    requires forall q: nat :: q < k.f * k.Plane() ==> y[q] == Flat(r, k, a, b, bias)(q)
    ensures HoldsConv(r, k, a, b, bias, y, was)
  {
    hide Flat, HoldsPixel, Conv.Plane, Conv.HOut, Conv.WOut;
    forall ff: nat, hh: nat, ww: nat | ff < k.f && hh < k.HOut() && ww < k.WOut()
      ensures HoldsPixel(r, k, a, b, bias, y, ff, hh, ww) {
      PixelIn(r, k, a, b, bias, y, ff, hh, ww);
    }
  }

  lemma PixelIn<E>(r: Ring<E>, k: Conv, a: seq<E>, b: seq<E>, bias: Option<seq<E>>, y: seq<E>, ff: nat, hh: nat,
                   ww: nat)
    requires k.Valid() && k.f * k.Plane() <= |y| && ff < k.f && hh < k.HOut() && ww < k.WOut()
    requires forall q: nat :: q < k.f * k.Plane() ==> y[q] == Flat(r, k, a, b, bias)(q)
    ensures HoldsPixel(r, k, a, b, bias, y, ff, hh, ww)
  {
    hide Flat, Pixel, Conv.Plane, Conv.HOut, Conv.WOut, Pos;
    PixelPlace(k, hh, ww);
    MulStep(ff, k.f, k.Plane());
    FlatAt(r, k, a, b, bias, ff, hh, ww);
  }
}
