/**
  Stream semantic registers (`runtime/snitch/snitch_ssr.h`): the macros that turn a loop nest
  into bounds and delta strides, and the address generator those registers drive. The generator
  follows the header's description of it: bounds hold a count less one, and stride register i
  holds what the pointer moves by when the loops inside loop i wrap.
 */
module Ssr {
  import opened Arith

  /** Registers and addresses are 32 bits wide. */
  const WORD: nat := 0x1_0000_0000

  /** One loop: its iteration count and its stride in bytes. A nest lists its loops innermost first. */
  datatype Level = Level(count: nat, step: int)

  ghost predicate Loops(nest: seq<Level>) {
    1 <= |nest| <= 4 && forall j :: 0 <= j < |nest| ==> 0 < nest[j].count < WORD
  }

  /* ---- What a nest means ---- */

  ghost function Size(nest: seq<Level>): nat { if nest == [] then 1 else nest[0].count * Size(nest[1..]) }

  function Quo(q: nat, c: nat): (d: nat)
    requires c > 0
  {
    DivNonNegative(q, c);
    q / c
  }

  function Rem(q: nat, c: nat): (r: nat)
    requires c > 0
    ensures r < c
  {
    q % c
  }

  lemma NextDigit(q: nat, c: nat)
    requires c > 0
    ensures q == Quo(q, c) * c + Rem(q, c)
    ensures Rem(q, c) < c - 1 ==> Quo(q + 1, c) == Quo(q, c) && Rem(q + 1, c) == Rem(q, c) + 1
    ensures Rem(q, c) == c - 1 ==> Quo(q + 1, c) == Quo(q, c) + 1 && Rem(q + 1, c) == 0
  {
    Distribute(q / c, 1, c);
    if q % c < c - 1 { Digits(q + 1, c, q / c, q % c + 1); } else { Digits(q + 1, c, q / c + 1, 0); }
  }

  ghost predicate Positive(nest: seq<Level>) { forall x :: 0 <= x < |nest| ==> nest[x].count > 0 }

  /** Where loop j stands at iteration q of the whole nest. */
  ghost function Index(nest: seq<Level>, q: nat, j: nat): (i: nat)
    requires j < |nest| && Positive(nest)
    ensures i < nest[j].count
  {
    if j == 0 then Rem(q, nest[0].count) else Index(nest[1..], Quo(q, nest[0].count), j - 1)
  }

  /** The byte offset at iteration q: every loop's index times its stride. */
  ghost function Offset(nest: seq<Level>, q: nat): int
    requires Positive(nest)
  {
    if nest == [] then 0
    else Rem(q, nest[0].count) * nest[0].step + Offset(nest[1..], Quo(q, nest[0].count))
  }

  /** What the loops inside loop j have travelled by the time they wrap. */
  ghost function Travel(nest: seq<Level>, j: nat): int
    requires j <= |nest|
  {
    if j == 0 then 0 else (nest[0].count - 1) * nest[0].step + Travel(nest[1..], j - 1)
  }

  lemma {:induction false} TravelOne(nest: seq<Level>, j: nat)
    requires j < |nest|
    ensures Travel(nest, j + 1) == Travel(nest, j) + (nest[j].count - 1) * nest[j].step
  {
    if j > 0 { TravelOne(nest[1..], j - 1); }
  }

  /** The offset of a nest at the iteration with these indices, one loop at a time. */
  lemma OffsetOf(nest: seq<Level>, k: nat, q: nat)
    requires nest != [] && Positive(nest) && k < nest[0].count
    ensures Offset(nest, k + q * nest[0].count) == k * nest[0].step + Offset(nest[1..], q)
  {
    Digits(k + q * nest[0].count, nest[0].count, q, k);
  }

  /** Three loops at once, given the indices of the iteration. */
  lemma OffsetOf3(nest: seq<Level>, k: nat, b: nat, i: nat)
    requires |nest| == 3 && Positive(nest) && k < nest[0].count && b < nest[1].count && i < nest[2].count
    ensures Offset(nest, k + (b + i * nest[1].count) * nest[0].count) ==
              k * nest[0].step + b * nest[1].step + i * nest[2].step
  {
    hide Offset, Quo, Rem;
    var n1 := nest[1..];
    var n2 := n1[1..];
    OffsetOf(nest, k, b + i * nest[1].count);
    OffsetOf(n1, b, i);
    OffsetOf(n2, i, 0);
    OffsetOfNone(n2[1..]);
  }

  lemma OffsetOfNone(nest: seq<Level>)
    requires nest == []
    ensures Offset(nest, 0) == 0
  {
  }

  ghost predicate Wrapped(nest: seq<Level>, q: nat, l: nat)
    requires l <= |nest| && Positive(nest)
  {
    forall j: nat :: j < l ==> Index(nest, q, j) == nest[j].count - 1
  }

  /** Going on by one iteration: loops inside l wrap, loop l takes a step ... */
  lemma {:induction false} AdvanceIndex(nest: seq<Level>, q: nat, l: nat, j: nat)
    requires l < |nest| && Positive(nest) && j < |nest|
    requires Wrapped(nest, q, l) && Index(nest, q, l) < nest[l].count - 1
    ensures Index(nest, q + 1, j) == if j < l then 0 else if j == l then Index(nest, q, j) + 1 else Index(nest, q, j)
  {
    hide Quo, Rem;
    NextDigit(q, nest[0].count);
    if l > 0 {
      WrappedInside(nest, q, l);
      if j > 0 { AdvanceIndex(nest[1..], Quo(q, nest[0].count), l - 1, j - 1); }
    }
  }

  /** ... and the offset moves by that loop's stride less what the loops inside it have travelled. */
  lemma {:induction false} Advance(nest: seq<Level>, q: nat, l: nat)
    requires l < |nest| && Positive(nest)
    requires Wrapped(nest, q, l) && Index(nest, q, l) < nest[l].count - 1
    ensures Offset(nest, q + 1) == Offset(nest, q) + nest[l].step - Travel(nest, l)
  {
    hide Quo, Rem;
    NextDigit(q, nest[0].count);
    if l == 0 {
      Distribute(Rem(q, nest[0].count), 1, nest[0].step);
    } else {
      WrappedInside(nest, q, l);
      Advance(nest[1..], Quo(q, nest[0].count), l - 1);
    }
  }

  lemma WrappedInside(nest: seq<Level>, q: nat, l: nat)
    requires 0 < l <= |nest| && Positive(nest)
    ensures Wrapped(nest, q, l) <==> Rem(q, nest[0].count) == nest[0].count - 1 &&
                                     Wrapped(nest[1..], Quo(q, nest[0].count), l - 1)
  {
    hide Quo, Rem;
    forall j: nat | j < l - 1 ensures Index(nest[1..], Quo(q, nest[0].count), j) == Index(nest, q, j + 1) {}
    assert Wrapped(nest, q, l) ==> Index(nest, q, 0) == nest[0].count - 1;
  }

  /** All loops have wrapped exactly at the last iteration. */
  lemma {:induction false} LastIteration(nest: seq<Level>, q: nat)
    requires q < Size(nest) && Positive(nest)
    ensures Wrapped(nest, q, |nest|) <==> q + 1 == Size(nest)
  {
    if nest != [] {
      var c, rest, d := nest[0].count, Size(nest[1..]), Quo(q, nest[0].count);
      NextDigit(q, c);
      WrappedInside(nest, q, |nest|);
      hide Quo, Rem, Wrapped;
      if d >= rest { MulMono(rest, d, c); }
      LastIteration(nest[1..], d);
      Distribute(d, 1, c);
      if d < rest - 1 { MulStep(d + 1, rest, c); }
    }
  }

  /** Delivering every element `times` times. */
  lemma Repeats(e: nat, times: nat, size: nat)
    requires times > 0 && e < times * size
    ensures Quo(e, times) < size && e + 1 <= times * size
    ensures e + 1 == times * size <==> Rem(e, times) == times - 1 && Quo(e, times) == size - 1
  {
    hide Quo, Rem;
    var q := Quo(e, times);
    NextDigit(e, times);
    if q >= size { MulMono(size, q, times); }
    Distribute(q, 1, times);
    if q < size - 1 { MulStep(q + 1, size, times); } else { assert size * times == q * times + times; }
  }

  /** The generator over `nest` from `base`, each element `times` times, after `e` elements. */
  ghost predicate Reached(nest: seq<Level>, times: nat, base: int, e: nat, ptr: nat, idx: seq<nat>, rep: nat,
                          live: bool) {
    && Loops(nest) && 0 < times && |idx| == 4
    && e <= times * Size(nest) && (live <==> e < times * Size(nest))
    && (live ==>
          && rep == Rem(e, times)
          && (forall j: nat :: j < |nest| ==> idx[j] == Index(nest, Quo(e, times), j))
          && ptr == (base + Offset(nest, Quo(e, times))) % WORD)
  }

  /** The same element once more. */
  lemma SameAgain(nest: seq<Level>, times: nat, base: int, e: nat, ptr: nat, idx: seq<nat>, rep: nat)
    requires Reached(nest, times, base, e, ptr, idx, rep, true) && rep < times - 1
    ensures Reached(nest, times, base, e + 1, ptr, idx, rep + 1, true)
  {
    hide Index, Offset, Size, Quo, Rem;
    Repeats(e, times, Size(nest));
    NextDigit(e, times);
  }

  /** The next element: loop l steps on, the loops inside it start over. */
  lemma StepOn(nest: seq<Level>, times: nat, base: int, e: nat, ptr: nat, idx: seq<nat>, rep: nat, l: nat,
               idx': seq<nat>)
    requires Reached(nest, times, base, e, ptr, idx, rep, true) && rep == times - 1 && l < |nest| && |idx'| == 4
    requires Wrapped(nest, Quo(e, times), l) && Index(nest, Quo(e, times), l) < nest[l].count - 1
    requires forall j: nat :: j < |nest| ==> idx'[j] == if j < l then 0 else if j == l then idx[l] + 1 else idx[j]
    ensures Reached(nest, times, base, e + 1, (ptr + (nest[l].step - Travel(nest, l)) % WORD) % WORD, idx', 0, true)
  {
    hide Index, Offset, Size, Quo, Rem;
    var q := Quo(e, times);
    Repeats(e, times, Size(nest));
    NextDigit(e, times);
    Advance(nest, q, l);
    forall j: nat | j < |nest| ensures idx'[j] == Index(nest, q + 1, j) { AdvanceIndex(nest, q, l, j); }
    ModSum(base + Offset(nest, q), nest[l].step - Travel(nest, l), WORD);
    LastIteration(nest, q);
  }

  /** After the last element the stream is over. */
  lemma Over(nest: seq<Level>, times: nat, base: int, e: nat, ptr: nat, idx: seq<nat>, rep: nat, idx': seq<nat>)
    requires Reached(nest, times, base, e, ptr, idx, rep, true) && rep == times - 1 && |idx'| == 4
    requires Wrapped(nest, Quo(e, times), |nest|)
    ensures Reached(nest, times, base, e + 1, ptr, idx', 0, false)
  {
    hide Index, Offset, Size, Wrapped, Quo, Rem;
    Repeats(e, times, Size(nest));
    LastIteration(nest, Quo(e, times));
  }

  /* ---- The data mover ---- */

  /** One data mover: configuration registers, then the state of its address generator. */
  class Mover {
    var repeat: nat
    var bounds: seq<nat>
    var strides: seq<nat>

    var dim: nat
    var ptr: nat
    var idx: seq<nat>
    var rep: nat
    var live: bool

    /** Four loop levels in hardware. */
    ghost predicate Wide()
      reads this`bounds, this`strides, this`idx
    {
      |bounds| == |strides| == |idx| == 4
    }

    /** After reset every element comes once. */
    constructor ()
      ensures Wide() && repeat == 0
    {
      repeat, bounds, strides := 0, [0, 0, 0, 0], [0, 0, 0, 0];
      dim, ptr, idx, rep, live := 0, 0, [0, 0, 0, 0], 0, false;
    }

    /** The registers describe this nest. */
    ghost predicate Configured(nest: seq<Level>)
      reads this`bounds, this`strides, this`idx
    {
      && Loops(nest) && Wide()
      && (forall j :: 0 <= j < |nest| ==> bounds[j] == nest[j].count - 1)
      && (forall j: nat :: j < |nest| ==> strides[j] == (nest[j].step - Travel(nest, j)) % WORD)
    }

    /** The stream over `nest` from `base`, each element `times` times, has delivered `e` elements. */
    ghost predicate Streaming(nest: seq<Level>, times: nat, base: int, e: nat)
      reads this
    {
      && Configured(nest) && dim + 1 == |nest| && repeat + 1 == times
      && Reached(nest, times, base, e, ptr, idx, rep, live)
    }

    /** `ssr_loop_1d` .. `ssr_loop_4d`: each stride less what the inner loops have travelled. */
    method Loop(nest: seq<Level>)
      requires Loops(nest) && Wide()
      modifies this`bounds, this`strides
      ensures Configured(nest)
    {
      var a, j := 0, 0;
      ghost var laps := 0;
      while j < |nest|
        invariant 0 <= j <= |nest| && |bounds| == |strides| == 4
        invariant a == Travel(nest, j) + laps * WORD
        invariant forall i: nat :: i < j ==> bounds[i] == nest[i].count - 1 &&
                                             strides[i] == (nest[i].step - Travel(nest, i)) % WORD
      {
        TravelOne(nest, j);
        var b := nest[j].count - 1;
        bounds := bounds[j := b];
        strides := strides[j := (nest[j].step - a) % WORD];
        ModAdd(nest[j].step - Travel(nest, j), WORD, -laps);
        var sum := a + nest[j].step * b;
        laps := laps - sum / WORD;
        a := sum % WORD;
        j := j + 1;
      }
    }

    /** `ssr_repeat` */
    method Repeat(times: nat)
      requires 0 < times
      modifies this`repeat
      ensures repeat == times - 1
    {
      repeat := times - 1;
    }

    /** `ssr_read`: points the stream at memory and rewinds its counters. */
    method Read(nest: seq<Level>, base: nat)
      requires Configured(nest)
      modifies this`dim, this`ptr, this`idx, this`rep, this`live
      ensures Streaming(nest, repeat + 1, base, 0)
    {
      dim, ptr, idx, rep, live := |nest| - 1, base % WORD, [0, 0, 0, 0], 0, true;
      StartsAtZero(nest);
      MulPositive(repeat + 1, Size(nest));
      Digits(0, repeat + 1, 0, 0);
    }

    /** The address of the next element. Lower loops wrap, the first that has not finished takes a step. */
    method Next(ghost nest: seq<Level>, ghost times: nat, ghost base: int, ghost e: nat) returns (addr: nat)
      requires Streaming(nest, times, base, e) && e < times * Size(nest)
      modifies this`ptr, this`idx, this`rep, this`live
      ensures Streaming(nest, times, base, e + 1)
      ensures addr == (base + Offset(nest, Quo(e, times))) % WORD
    {
      hide Index, Offset, Size, Travel, Quo, Rem;
      addr := ptr;
      if rep < repeat {
        SameAgain(nest, times, base, e, ptr, idx, rep);
        rep := rep + 1;
        return;
      }
      Repeats(e, times, Size(nest));
      ghost var q, was := Quo(e, times), idx;
      rep := 0;
      var l := 0;
      while l <= dim && idx[l] == bounds[l]
        invariant 0 <= l <= dim + 1 == |nest| && |idx| == 4 && Wrapped(nest, q, l)
        invariant forall j: nat :: j < |nest| ==> idx[j] == if j < l then 0 else was[j]
        modifies this`idx
      {
        idx := idx[l := 0];
        l := l + 1;
      }
      if l <= dim {
        StepOn(nest, times, base, e, ptr, was, times - 1, l, idx[l := idx[l] + 1]);
        idx := idx[l := idx[l] + 1];
        ptr := (ptr + strides[l]) % WORD;
      } else {
        Over(nest, times, base, e, ptr, was, times - 1, idx);
        live := false;
      }
    }
  }

  lemma {:induction false} StartsAtZero(nest: seq<Level>)
    requires Positive(nest)
    ensures Size(nest) > 0 && Offset(nest, 0) == 0
    ensures forall j: nat :: j < |nest| ==> Index(nest, 0, j) == 0
  {
    if nest != [] {
      StartsAtZero(nest[1..]);
      Digits(0, nest[0].count, 0, 0);
      MulPositive(nest[0].count, Size(nest[1..]));
    }
  }

  /** Sums may be reduced on the way. */
  lemma ModSum(a: int, b: int, m: nat)
    requires m > 0
    ensures (a % m + b % m) % m == (a + b) % m
  {
    var q := a / m + b / m;
    assert a == a / m * m + a % m && b == b / m * m + b % m;
    Distribute(a / m, b / m, m);
    ModAdd(a % m + b % m, m, q);
  }
}
