/**
  The kernels a cluster can be asked to run (`runtime/mesh/hes_job.h`), as calls on the values their
  pointers lead to, and what one core's share of a call is (`run_slice`,
  `runtime/mesh/cluster_main.c`): an offset into the sliced operands and a smaller extent.
 */
module Calls {
  import opened Arith
  import opened Options
  import opened Rings
  import Gemm
  import ConvSsr
  import Mfcc
  import Ssr

  /** The numbers the kernels work in; `root` is the root of unity the twiddles of a length are powers of. */
  datatype Numbers<!E> = Numbers(ring: Ring<E>, floorLog: E -> E, root: nat -> Pair<E>)

  datatype Call<!E> =
    | Product(s: Gemm.Shape, a: seq<E>, b: seq<E>, c: Option<seq<E>>)
    | Convolve(k: ConvSsr.Conv, x: seq<E>, weights: seq<E>, bias: Option<seq<E>>)
    | Cepstra(tb: Mfcc.Tables<E>, audio: seq<E>, frames: nat)
    | Nothing

  /** The operands have the sizes the kernels walk. */
  ghost predicate Sized<E>(call: Call<E>) {
    match call
    case Product(s, a, b, c) => |a| == s.m * s.n && |b| == s.n * s.o && (c.Some? ==> |c.value| == s.m * s.o)
    case Convolve(k, x, weights, bias) => k.Valid() && |weights| == k.f * k.Taps() &&
                                          (bias.Some? ==> |bias.value| == k.f)
    case Cepstra(tb, audio, frames) => frames > 0 && |audio| == (frames - 1) * tb.hop + tb.frameLen
    case Nothing => true
  }

  /** What a call is sliced over: rows, filters, frames. */
  function Units<E>(call: Call<E>): nat {
    match call
    case Product(s, _, _, _) => s.m
    case Convolve(k, _, _, _) => k.f
    case Cepstra(_, _, frames) => frames
    case Nothing => 0
  }

  /** How many elements of the result one of them comes to. */
  function UnitLength<E>(call: Call<E>): nat
    requires Sized(call)
  {
    match call
    case Product(s, _, _, _) => s.o
    case Convolve(k, _, _, _) => k.Plane()
    case Cepstra(tb, _, _) => tb.nbCep
    case Nothing => 0
  }

  /** Element q of the flat result, as the kernels are proved to compute it. */
  function ElementOf<E>(nu: Numbers<E>, call: Call<E>, q: nat): E
    requires Sized(call)
  {
    match call
    case Product(s, a, b, c) => Gemm.Flat(nu.ring, s, a, b, c)(q)
    case Convolve(k, x, weights, bias) => ConvSsr.Flat(nu.ring, k, x, weights, bias)(q)
    case Cepstra(tb, audio, frames) => Mfcc.Features(nu.ring, tb, audio, frames, nu.root(tb.log))(q)
    case Nothing => nu.ring.zero
  }

  /** A product with A transposed is left to one core. */
  predicate Whole<E>(call: Call<E>) { call.Product? && call.s.transA }

  /** The weights of filters [first, last). */
  function Filters<E>(k: ConvSsr.Conv, weights: seq<E>, first: nat, last: nat): (w: seq<E>)
    requires first <= last <= k.f && |weights| == k.f * k.Taps()
    ensures |w| == (last - first) * k.Taps()
  {
    var t := k.Taps();
    MulMono(first, last, t); MulMono(last, k.f, t); Distribute(last - first, first, t);
    weights[first * t..last * t]
  }

  /** The share [first, last) of a call. */
  function Share<E>(call: Call<E>, first: nat, last: nat): (share: Call<E>)
    requires Sized(call) && first < last <= Units(call) && (Whole(call) ==> first == 0 && last == Units(call))
    ensures Sized(share) && Units(share) == last - first && UnitLength(share) == UnitLength(call)
  {
    match call
    case Product(s, a, b, c) =>
      MulMono(first, last, s.n); MulMono(last, s.m, s.n); MulMono(first, last, s.o); MulMono(last, s.m, s.o);
      Distribute(last - first, first, s.n); Distribute(last - first, first, s.o);
      if s.transA then call
      else Product(s.(m := last - first), a[first * s.n..last * s.n], b,
                   if c.Some? then Some(c.value[first * s.o..last * s.o]) else None)
    case Convolve(k, x, weights, bias) =>
      Convolve(k.(f := last - first), x, Filters(k, weights, first, last),
               if bias.Some? then Some(bias.value[first..last]) else None)
    case Cepstra(tb, audio, frames) =>
      MulMono(first, last - 1, tb.hop); MulMono(last - 1, frames - 1, tb.hop);
      Distribute(last - 1 - first, first, tb.hop);
      Cepstra(tb, audio[first * tb.hop..(last - 1) * tb.hop + tb.frameLen], last - first)
    case Nothing => assert false; call
  }

  /* ---- A share computes its part of the whole ---- */

  lemma SubElement<E>(r: Ring<E>, x: seq<E>, lo: nat, hi: nat, t: nat)
    requires lo <= hi <= |x| && t < hi - lo
    ensures Element(r, x[lo..hi])(t) == Element(r, x)(lo + t)
  {
  }

  lemma ProductShare<E(!new)>(nu: Numbers<E>, call: Call<E>, first: nat, last: nat, i: nat, j: nat)
    requires Sized(call) && call.Product? && !call.s.transA && first < last <= call.s.m && i < last - first &&
             j < call.s.o
    ensures var sh := Share(call, first, last);
            Gemm.Output(nu.ring, sh.s, sh.a, sh.b, sh.c, i, j) ==
              Gemm.Output(nu.ring, call.s, call.a, call.b, call.c, first + i, j)
  {
    var r, s, sh := nu.ring, call.s, Share(call, first, last);
    var f, g := Gemm.Product(r, sh.s, sh.a, sh.b, i, j), Gemm.Product(r, s, call.a, call.b, first + i, j);
    forall k: nat | k < s.n ensures f(k) == g(k) {
      ProductShareTerm(nu, call, first, last, i, j, k);
    }
    SumSame(r, f, g, s.n);
    MulStep(i, last - first, s.o); Distribute(first, i, s.o); MulMono(last, s.m, s.o);
    Distribute(last - first, first, s.o);
    if call.c.Some? { SubElement(r, call.c.value, first * s.o, last * s.o, i * s.o + j); }
  }

  lemma ProductShareTerm<E>(nu: Numbers<E>, call: Call<E>, first: nat, last: nat, i: nat, j: nat, k: nat)
    requires Sized(call) && call.Product? && !call.s.transA && first < last <= call.s.m && i < last - first &&
             k < call.s.n
    ensures var sh := Share(call, first, last);
            Gemm.Product(nu.ring, sh.s, sh.a, sh.b, i, j)(k) ==
              Gemm.Product(nu.ring, call.s, call.a, call.b, first + i, j)(k)
  {
    var s := call.s;
    MulStep(i, last - first, s.n); Distribute(first, i, s.n); MulMono(last, s.m, s.n);
    Distribute(last - first, first, s.n);
    SubElement(nu.ring, call.a, first * s.n, last * s.n, i * s.n + k);
    var r, sh := nu.ring, Share(call, first, last);
    var x, y := Element(r, sh.a)(Gemm.AIndex(sh.s, i, k)), Element(r, call.b)(Gemm.BIndex(s, k, j));
    assert Element(r, call.a)(Gemm.AIndex(s, first + i, k)) == x;
    assert Gemm.BIndex(sh.s, k, j) == Gemm.BIndex(s, k, j);
    assert Gemm.Product(r, sh.s, sh.a, sh.b, i, j)(k) == r.mul(x, y);
    assert Gemm.Product(r, s, call.a, call.b, first + i, j)(k) == r.mul(x, y);
  }

  lemma TapShare<E>(r: Ring<E>, k: ConvSsr.Conv, x: seq<E>, weights: seq<E>, first: nat, last: nat,
                    ff: nat, hh: nat, ww: nat, cc: nat, pp: nat, qq: nat)
    requires first < last <= k.f && |weights| == k.f * k.Taps() && ff < last - first && cc < k.c && pp < k.p &&
             qq < k.q && k.Valid()
    ensures ConvSsr.TapTerm(r, k.(f := last - first), x, Filters(k, weights, first, last), ff, hh, ww, cc, pp, qq) ==
            ConvSsr.TapTerm(r, k, x, weights, first + ff, hh, ww, cc, pp, qq)
  {
    var k' := k.(f := last - first);
    assert k'.Taps() == k.Taps();
    WeightShare(k, last, first, ff, cc, pp, qq);
    InputSame(k, last - first, hh, ww, cc, pp, qq);
    hide ConvSsr.Conv.Taps, ConvSsr.WeightIndex, ConvSsr.InputIndex;
    SubElement(r, weights, first * k.Taps(), last * k.Taps(), ConvSsr.WeightIndex(k', ff, cc, pp, qq));
  }

  lemma RowShare<E(!new)>(r: Ring<E>, k: ConvSsr.Conv, x: seq<E>, weights: seq<E>, first: nat, last: nat,
                          ff: nat, hh: nat, ww: nat, cc: nat, pp: nat)
    requires first < last <= k.f && |weights| == k.f * k.Taps() && ff < last - first && cc < k.c && pp < k.p &&
             k.Valid()
    ensures ConvSsr.RowSum(r, k.(f := last - first), x, Filters(k, weights, first, last), ff, hh, ww, cc, pp) ==
            ConvSsr.RowSum(r, k, x, weights, first + ff, hh, ww, cc, pp)
  {
    var k', w := k.(f := last - first), Filters(k, weights, first, last);
    forall qq: nat {:trigger ConvSsr.TapTerm(r, k', x, w, ff, hh, ww, cc, pp, qq)} | qq < k.q
      ensures ConvSsr.TapTerm(r, k', x, w, ff, hh, ww, cc, pp, qq) ==
                ConvSsr.TapTerm(r, k, x, weights, first + ff, hh, ww, cc, pp, qq)
    {
      TapShare(r, k, x, weights, first, last, ff, hh, ww, cc, pp, qq);
    }
    hide ConvSsr.TapTerm, Filters;
    SumSame(r, (qq: nat) => ConvSsr.TapTerm(r, k', x, w, ff, hh, ww, cc, pp, qq),
            (qq: nat) => ConvSsr.TapTerm(r, k, x, weights, first + ff, hh, ww, cc, pp, qq), k.q);
  }

  lemma ChannelShare<E(!new)>(r: Ring<E>, k: ConvSsr.Conv, x: seq<E>, weights: seq<E>, first: nat, last: nat,
                              ff: nat, hh: nat, ww: nat, cc: nat)
    requires first < last <= k.f && |weights| == k.f * k.Taps() && ff < last - first && cc < k.c && k.Valid()
    ensures ConvSsr.ChannelSum(r, k.(f := last - first), x, Filters(k, weights, first, last), ff, hh, ww, cc) ==
            ConvSsr.ChannelSum(r, k, x, weights, first + ff, hh, ww, cc)
  {
    var k', w := k.(f := last - first), Filters(k, weights, first, last);
    forall pp: nat {:trigger ConvSsr.RowSum(r, k', x, w, ff, hh, ww, cc, pp)} | pp < k.p
      ensures ConvSsr.RowSum(r, k', x, w, ff, hh, ww, cc, pp) ==
                ConvSsr.RowSum(r, k, x, weights, first + ff, hh, ww, cc, pp)
    {
      RowShare(r, k, x, weights, first, last, ff, hh, ww, cc, pp);
    }
    hide ConvSsr.RowSum, Filters;
    SumSame(r, (pp: nat) => ConvSsr.RowSum(r, k', x, w, ff, hh, ww, cc, pp),
            (pp: nat) => ConvSsr.RowSum(r, k, x, weights, first + ff, hh, ww, cc, pp), k.p);
  }

  lemma WindowShare<E(!new)>(r: Ring<E>, k: ConvSsr.Conv, x: seq<E>, weights: seq<E>, first: nat, last: nat, ff: nat,
                             hh: nat, ww: nat)
    requires first < last <= k.f && |weights| == k.f * k.Taps() && ff < last - first && k.Valid()
    ensures ConvSsr.Window(r, k.(f := last - first), x, Filters(k, weights, first, last), ff, hh, ww) ==
            ConvSsr.Window(r, k, x, weights, first + ff, hh, ww)
  {
    var k', w := k.(f := last - first), Filters(k, weights, first, last);
    forall cc: nat {:trigger ConvSsr.ChannelSum(r, k', x, w, ff, hh, ww, cc)} | cc < k.c
      ensures ConvSsr.ChannelSum(r, k', x, w, ff, hh, ww, cc) ==
                ConvSsr.ChannelSum(r, k, x, weights, first + ff, hh, ww, cc)
    {
      ChannelShare(r, k, x, weights, first, last, ff, hh, ww, cc);
    }
    hide ConvSsr.ChannelSum, Filters;
    SumSame(r, (cc: nat) => ConvSsr.ChannelSum(r, k', x, w, ff, hh, ww, cc),
            (cc: nat) => ConvSsr.ChannelSum(r, k, x, weights, first + ff, hh, ww, cc), k.c);
  }

  lemma PixelShare<E(!new)>(r: Ring<E>, k: ConvSsr.Conv, x: seq<E>, weights: seq<E>, bias: Option<seq<E>>,
                            bias': Option<seq<E>>,
                            first: nat, last: nat, ff: nat, hh: nat, ww: nat)
    requires first < last <= k.f && |weights| == k.f * k.Taps() && ff < last - first && k.Valid()
    requires bias.Some? == bias'.Some? && (bias.Some? ==>
                                           last <= |bias.value| && bias'.value == bias.value[first..last])
    ensures ConvSsr.Pixel(r, k.(f := last - first), x, Filters(k, weights, first, last), bias', ff, hh, ww) ==
            ConvSsr.Pixel(r, k, x, weights, bias, first + ff, hh, ww)
  {
    hide ConvSsr.Window, Filters;
    WindowShare(r, k, x, weights, first, last, ff, hh, ww);
  }

  lemma InputSame(k: ConvSsr.Conv, f: nat, hh: nat, ww: nat, cc: nat, pp: nat, qq: nat)
    ensures ConvSsr.InputIndex(k.(f := f), hh, ww, cc, pp, qq) == ConvSsr.InputIndex(k, hh, ww, cc, pp, qq)
  {
  }

  lemma WeightShare(k: ConvSsr.Conv, last: nat, first: nat, ff: nat, cc: nat, pp: nat, qq: nat)
    requires k.Valid() && first < last <= k.f && ff < last - first && cc < k.c && pp < k.p && qq < k.q
    ensures var x := ConvSsr.WeightIndex(k.(f := last - first), ff, cc, pp, qq);
            && first * k.Taps() + x == ConvSsr.WeightIndex(k, first + ff, cc, pp, qq)
            && x < last * k.Taps() - first * k.Taps() && first * k.Taps() <= last * k.Taps() <= k.f * k.Taps()
  {
    var t, sh := k.Taps(), k.(f := last - first);
    ConvSsr.WeightInRange(sh, ff, cc, pp, qq);
    MulMono(last, k.f, t); Distribute(last - first, first, t); Distribute(first, ff, t); MulMono(first, last, t);
    hide ConvSsr.Conv.Taps;
  }

  lemma FrameShare<E>(nu: Numbers<E>, call: Call<E>, first: nat, last: nat, t: nat)
    requires Sized(call) && call.Cepstra? && first < last <= call.frames && t < last - first
    ensures Mfcc.FrameOf(nu.ring, call.tb, Share(call, first, last).audio, t) ==
              Mfcc.FrameOf(nu.ring, call.tb, call.audio, first + t)
  {
    var tb, sh := call.tb, Share(call, first, last);
    var x, y := Mfcc.FrameOf(nu.ring, tb, sh.audio, t), Mfcc.FrameOf(nu.ring, tb, call.audio, first + t);
    forall i: nat | i < |x| ensures x[i] == y[i] {
      if i < tb.frameLen { SampleShare(nu, call, first, last, t, i); }
    }
  }

  lemma SampleShare<E>(nu: Numbers<E>, call: Call<E>, first: nat, last: nat, t: nat, i: nat)
    requires Sized(call) && call.Cepstra? && first < last <= call.frames && t < last - first && i < call.tb.frameLen
    ensures Element(nu.ring, Share(call, first, last).audio)(t * call.tb.hop + i) ==
            Element(nu.ring, call.audio)((first + t) * call.tb.hop + i)
  {
    var hop := call.tb.hop;
    MulMono(t, last - 1 - first, hop); MulMono(first, last - 1, hop); MulMono(last - 1, call.frames - 1, hop);
    Distribute(last - 1 - first, first, hop); Distribute(first, t, hop);
    SubElement(nu.ring, call.audio, first * hop, (last - 1) * hop + call.tb.frameLen, t * hop + i);
  }

  /** Unit i of a share is unit first + i of the call: elements of the flat result, one by one. */
  lemma ShareComputesItsPart<E(!new)>(nu: Numbers<E>, call: Call<E>, first: nat, last: nat, q: nat)
    requires Sized(call) && first < last <= Units(call) && (Whole(call) ==> first == 0 && last == Units(call))
    requires q < (last - first) * UnitLength(call)
    ensures ElementOf(nu, Share(call, first, last), q) == ElementOf(nu, call, first * UnitLength(call) + q)
  {
    hide ElementOf, Share, Sized;
    var i, j := UnitAt(q, UnitLength(call), first, last);
    if call.Product? { ProductElement(nu, call, first, last, i, j); }
    else if call.Convolve? { ConvElement(nu, call, first, last, i, j); }
    else if call.Cepstra? { CepstraElement(nu, call, first, last, i, j); }
  }

  /** Which unit of a share an element belongs to, and which of the call. */
  lemma UnitAt(q: nat, n: nat, first: nat, last: nat) returns (i: nat, j: nat)
    requires first <= last && q < (last - first) * n
    ensures i < last - first && j < n && q == i * n + j && first * n + q == (first + i) * n + j
  {
    assert n > 0;
    i, j := Ssr.Quo(q, n), Ssr.Rem(q, n);
    if i >= last - first { MulMono(last - first, i, n); }
    Distribute(first, i, n);
  }

  lemma ProductElement<E(!new)>(nu: Numbers<E>, call: Call<E>, first: nat, last: nat, i: nat, j: nat)
    requires Sized(call) && call.Product? && first < last <= call.s.m &&
             (Whole(call) ==> first == 0 && last == call.s.m)
    requires i < last - first && j < call.s.o
    ensures ElementOf(nu, Share(call, first, last), i * call.s.o + j) == ElementOf(nu, call, (first + i) * call.s.o + j)
  {
    var s, sh := call.s, Share(call, first, last);
    hide Gemm.Flat, Gemm.Output;
    Gemm.FlatAt(nu.ring, sh.s, sh.a, sh.b, sh.c, i, j);
    Gemm.FlatAt(nu.ring, s, call.a, call.b, call.c, first + i, j);
    if !s.transA { ProductShare(nu, call, first, last, i, j); }
  }

  lemma ConvElement<E(!new)>(nu: Numbers<E>, call: Call<E>, first: nat, last: nat, ff: nat, at: nat)
    requires Sized(call) && call.Convolve? && first < last <= call.k.f && ff < last - first && at < UnitLength(call)
    ensures ElementOf(nu, Share(call, first, last), ff * UnitLength(call) + at) ==
              ElementOf(nu, call, (first + ff) * UnitLength(call) + at)
  {
    var sh := ConvShare(call, first, last);
    hide ConvSsr.Pixel, Filters, Share, ElementOf, UnitLength, ConvSsr.Conv.HOut, ConvSsr.Conv.WOut, ConvSsr.Conv.Taps;
    var hh, ww := PixelAt(nu, call, first + ff, at);
    var _, _ := PixelAt(nu, sh, ff, at);
    PixelShare(nu.ring, call.k, call.x, call.weights, call.bias, sh.bias, first, last, ff, hh, ww);
  }

  lemma ConvShare<E>(call: Call<E>, first: nat, last: nat) returns (sh: Call<E>)
    requires Sized(call) && call.Convolve? && first < last <= call.k.f
    ensures sh == Share(call, first, last) && sh.Convolve? && Sized(sh) && UnitLength(sh) == UnitLength(call)
    ensures sh.k == call.k.(f := last - first) && sh.k.WOut() == call.k.WOut() && sh.x == call.x
    ensures sh.weights == Filters(call.k, call.weights, first, last) && sh.bias.Some? == call.bias.Some?
    ensures call.bias.Some? ==> last <= |call.bias.value| && sh.bias.value == call.bias.value[first..last]
  {
    sh := Share(call, first, last);
  }

  /** Which pixel an element of the flat result is. */
  lemma PixelAt<E>(nu: Numbers<E>, call: Call<E>, ff: nat, at: nat) returns (hh: nat, ww: nat)
    requires Sized(call) && call.Convolve? && at < UnitLength(call)
    ensures hh == Ssr.Quo(at, call.k.WOut()) && ww == Ssr.Rem(at, call.k.WOut())
    ensures ElementOf(nu, call, ff * UnitLength(call) + at) ==
              ConvSsr.Pixel(nu.ring, call.k, call.x, call.weights, call.bias, ff, hh, ww)
  {
    var k := call.k;
    hh, ww := Ssr.Quo(at, k.WOut()), Ssr.Rem(at, k.WOut());
    if hh >= k.HOut() { MulMono(k.HOut(), hh, k.WOut()); }
    assert at == ConvSsr.Pos(k, hh, ww);
    hide ConvSsr.Flat, ConvSsr.Pixel;
    ConvSsr.FlatAt(nu.ring, k, call.x, call.weights, call.bias, ff, hh, ww);
  }

  lemma CepstraElement<E(!new)>(nu: Numbers<E>, call: Call<E>, first: nat, last: nat, t: nat, c: nat)
    requires Sized(call) && call.Cepstra? && first < last <= call.frames && t < last - first && c < call.tb.nbCep
    ensures ElementOf(nu, Share(call, first, last), t * call.tb.nbCep + c) ==
              ElementOf(nu, call, (first + t) * call.tb.nbCep + c)
  {
    var tb, sh, w := call.tb, Share(call, first, last), nu.root(call.tb.log);
    hide Mfcc.Features, Mfcc.Cepstrum, Mfcc.FrameOf;
    Mfcc.FeatureAt(nu.ring, tb, sh.audio, last - first, w, t, c);
    Mfcc.FeatureAt(nu.ring, tb, call.audio, call.frames, w, first + t, c);
    FrameShare(nu, call, first, last, t);
  }
}
