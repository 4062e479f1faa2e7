/**
  An FREP region (`runtime/snitch/snitch_ssr.h`, SSR_FREP_BEGIN .. SSR_FREP_END): a body of
  fused multiply-adds, one per accumulator, replayed while two streams feed it an element each
  per instruction.
 */
module Frep {
  import opened Arith
  import opened Rings
  import opened Ssr

  /** An array of 4-byte elements and its address. */
  datatype Source<E> = Source(data: seq<E>, base: nat)

  ghost predicate Placed<E>(s: Source<E>) { s.base + 4 * |s.data| <= WORD }

  /** A stream as a kernel sets it up: the nest, the repeat count, and where it starts. */
  datatype Stream = Stream(nest: seq<Level>, times: nat, start: int)

  ghost predicate At(dm: Mover, s: Stream, e: nat)
    reads dm
  {
    dm.Streaming(s.nest, s.times, s.start, e)
  }

  ghost function Length(s: Stream): nat { s.times * Size(s.nest) }

  /** The element at an address. */
  function Fetch<E>(r: Ring<E>, s: Source<E>, addr: nat): E {
    if addr >= s.base then Element(r, s.data)((addr - s.base) / 4) else r.zero
  }

  /** What a stream delivers as its e-th element. */
  ghost function Delivered<E>(r: Ring<E>, src: Source<E>, s: Stream, e: nat): E
    requires Positive(s.nest) && s.times > 0
  {
    Fetch(r, src, (s.start + Offset(s.nest, Quo(e, s.times))) % WORD)
  }

  /** An element inside the array is delivered as it is: addresses do not wrap there. */
  lemma DeliversElement<E>(r: Ring<E>, src: Source<E>, s: Stream, e: nat, i: nat)
    requires Positive(s.nest) && s.times > 0 && Placed(src) && i < |src.data|
    requires s.start + Offset(s.nest, Quo(e, s.times)) == src.base + 4 * i
    ensures Delivered(r, src, s, e) == src.data[i] == Element(r, src.data)(i)
  {
    Digits(src.base + 4 * i, WORD, 0, src.base + 4 * i);
  }

  /** The products accumulator u takes in. */
  ghost function Products<E>(r: Ring<E>, src0: Source<E>, s0: Stream, src1: Source<E>, s1: Stream, e: nat, u: nat,
                             unroll: nat): nat -> E
    requires Positive(s0.nest) && Positive(s1.nest) && s0.times > 0 && s1.times > 0
  {
    (k: nat) => r.mul(Delivered(r, src0, s0, e + k * unroll + u), Delivered(r, src1, s1, e + k * unroll + u))
  }

  lemma ProductsAt<E>(r: Ring<E>, src0: Source<E>, s0: Stream, src1: Source<E>, s1: Stream, e: nat, u: nat, unroll: nat,
                      k: nat)
    requires Positive(s0.nest) && Positive(s1.nest) && s0.times > 0 && s1.times > 0
    ensures Products(r, src0, s0, src1, s1, e, u, unroll)(k) ==
            r.mul(Delivered(r, src0, s0, e + k * unroll + u), Delivered(r, src1, s1, e + k * unroll + u))
  {
    hide Delivered;
  }

  /** What the accumulators hold after k replays. */
  ghost predicate Replayed<E>(r: Ring<E>, src0: Source<E>, s0: Stream, src1: Source<E>, s1: Stream, e: nat, acc: seq<E>,
                              acc': seq<E>, k: nat)
    requires Positive(s0.nest) && Positive(s1.nest) && s0.times > 0 && s1.times > 0
  {
    |acc'| == |acc| && forall u: nat :: u < |acc| ==>
      acc'[u] == Fold(r, acc[u], Products(r, src0, s0, src1, s1, e, u, |acc|), k)
  }

  /** One more replay is one more product in every accumulator. */
  lemma OneReplay<E>(r: Ring<E>, src0: Source<E>, s0: Stream, src1: Source<E>, s1: Stream, e: nat,
                     acc: seq<E>, acc1: seq<E>, acc2: seq<E>, k: nat)
    requires Positive(s0.nest) && Positive(s1.nest) && s0.times > 0 && s1.times > 0 && |acc2| == |acc1|
    requires Replayed(r, src0, s0, src1, s1, e, acc, acc1, k)
    requires forall u: nat :: u < |acc1| ==>
               acc2[u] == r.add(acc1[u], r.mul(Delivered(r, src0, s0, e + k * |acc| + u),
                                               Delivered(r, src1, s1, e + k * |acc| + u)))
    ensures Replayed(r, src0, s0, src1, s1, e, acc, acc2, k + 1)
  {
    hide Delivered;
  }

  /**
    The region: `n` replays of a body of |acc| multiply-adds. Accumulator u gets the products of
    every |acc|-th element of the two streams, from the u-th on.
   */
  method Region<E>(r: Ring<E>, dm0: Mover, src0: Source<E>, ghost s0: Stream, dm1: Mover, src1: Source<E>,
                   ghost s1: Stream,
                   acc: seq<E>, n: nat, ghost e: nat) returns (acc': seq<E>)
    requires dm0 != dm1 && At(dm0, s0, e) && At(dm1, s1, e)
    requires e + n * |acc| <= Length(s0) && e + n * |acc| <= Length(s1)
    modifies dm0`ptr, dm0`idx, dm0`rep, dm0`live, dm1`ptr, dm1`idx, dm1`rep, dm1`live
    ensures At(dm0, s0, e + n * |acc|) && At(dm1, s1, e + n * |acc|)
    ensures Positive(s0.nest) && Positive(s1.nest) && s0.times > 0 && s1.times > 0
    ensures |acc'| == |acc|
    ensures forall u: nat :: u < |acc| ==> acc'[u] == Fold(r, acc[u], Products(r, src0, s0, src1, s1, e, u, |acc|), n)
  {
    hide Products, Delivered;
    var unroll := |acc|;
    acc' := acc;
    var k := 0;
    ghost var at := e;
    while k < n
      invariant k <= n && |acc'| == unroll && at == e + k * unroll
      invariant At(dm0, s0, at) && At(dm1, s1, at)
      invariant Replayed(r, src0, s0, src1, s1, e, acc, acc', k)
    {
      MulStep(k, n, unroll);
      Distribute(k, 1, unroll);
      ghost var before := acc';
      acc' := Body(r, dm0, src0, s0, dm1, src1, s1, acc', at);
      OneReplay(r, src0, s0, src1, s1, e, acc, before, acc', k);
      at := at + unroll;
      k := k + 1;
    }
  }

  /** One replay of the body. */
  method Body<E>(r: Ring<E>, dm0: Mover, src0: Source<E>, ghost s0: Stream, dm1: Mover, src1: Source<E>,
                 ghost s1: Stream,
                 acc: seq<E>, ghost e: nat) returns (acc': seq<E>)
    requires dm0 != dm1 && At(dm0, s0, e) && At(dm1, s1, e)
    requires e + |acc| <= Length(s0) && e + |acc| <= Length(s1)
    modifies dm0`ptr, dm0`idx, dm0`rep, dm0`live, dm1`ptr, dm1`idx, dm1`rep, dm1`live
    ensures At(dm0, s0, e + |acc|) && At(dm1, s1, e + |acc|)
    ensures Positive(s0.nest) && Positive(s1.nest) && s0.times > 0 && s1.times > 0
    ensures |acc'| == |acc|
    ensures forall u: nat :: u < |acc| ==> acc'[u] ==
                                           r.add(acc[u], r.mul(Delivered(r, src0, s0, e + u),
                                                               Delivered(r, src1, s1, e + u)))
  {
    hide Fetch, Reached, Offset, Quo;
    acc' := acc;
    var u := 0;
    while u < |acc|
      invariant u <= |acc| == |acc'|
      invariant At(dm0, s0, e + u) && At(dm1, s1, e + u)
      invariant forall i: nat :: i < |acc| ==>
        acc'[i] == if i < u then r.add(acc[i], r.mul(Delivered(r, src0, s0, e + i), Delivered(r, src1, s1, e + i)))
          else acc[i]
    {
      var a0 := dm0.Next(s0.nest, s0.times, s0.start, e + u);
      var a1 := dm1.Next(s1.nest, s1.times, s1.start, e + u);
      acc' := acc'[u := r.add(acc'[u], r.mul(Fetch(r, src0, a0), Fetch(r, src1, a1)))];
      u := u + 1;
    }
  }
}
