/**
  How the timing engine splits a request into bursts (`targets/hetero/dram_core.hpp`, `access`):
  the request is widened to whole aligned granules and walked a burst at a time.
 */
module DramRequest {
  import opened Arith

  /** First byte of the widened request, and its last byte: `addr & ~(align - 1)`, `(addr + size - 1) | (align - 1)`. */
  function SpanFirst(addr: nat, align: nat): (first: nat)
    requires align > 0
    ensures first <= addr < first + align
  {
    DivNonNegative(addr, align);
    MulMono(0, addr / align, align);
    addr - addr % align
  }

  function SpanLast(addr: nat, size: nat, align: nat): int
    requires align > 0 && size > 0
  {
    var e := addr + size - 1;
    e - e % align + align - 1
  }

  /** The burst addresses the access loop visits: from `a` in steps of a burst while below `last`. */
  function BurstsFrom(a: nat, last: int, bytes: nat): seq<nat>
    requires bytes > 0
    decreases last - a
  {
    if a < last then [a] + BurstsFrom(a + bytes, last, bytes) else []
  }

  /** One more burst gone through. */
  lemma NextBurstFrom(done: seq<nat>, a: nat, last: int, bytes: nat)
    requires bytes > 0 && a < last
    ensures done + BurstsFrom(a, last, bytes) == done + [a] + BurstsFrom(a + bytes, last, bytes)
  {
  }

  lemma NoBurstFrom(done: seq<nat>, a: nat, last: int, bytes: nat)
    requires bytes > 0 && a >= last
    ensures done + BurstsFrom(a, last, bytes) == done
  {
  }

  /** Is byte `x` of memory inside one of the bursts? */
  ghost predicate Covered(x: nat, bursts: seq<nat>, bytes: nat) {
    exists i :: 0 <= i < |bursts| && bursts[i] <= x < bursts[i] + bytes
  }

  lemma {:induction false} BurstsCover(a: nat, last: int, bytes: nat, x: nat)
    requires bytes > 0 && a <= x && x - (x - a) % bytes < last
    ensures Covered(x, BurstsFrom(a, last, bytes), bytes)
    decreases last - a
  {
    var bursts := BurstsFrom(a, last, bytes);
    if x < a + bytes {
      Digits(x - a, bytes, 0, x - a);
      assert bursts[0] == a;
    } else {
      ModAdd(x - a - bytes, bytes, 1);
      BurstsCover(a + bytes, last, bytes, x);
      var rest := BurstsFrom(a + bytes, last, bytes);
      var i :| 0 <= i < |rest| && rest[i] <= x < rest[i] + bytes;
      assert bursts[i + 1] == rest[i];
    }
  }

  lemma {:induction false} BurstsBelow(a: nat, last: int, bytes: nat, i: nat)
    requires bytes > 0 && i < |BurstsFrom(a, last, bytes)|
    ensures a <= BurstsFrom(a, last, bytes)[i] < last
    decreases last - a
  {
    if i > 0 { BurstsBelow(a + bytes, last, bytes, i - 1); }
  }

  /**
    The loop tests `a < last` against the last byte, not one past it. Every requested byte is in
    a timed burst, for all requests, if and only if a burst is more than one byte.
   */
  lemma RequestCoveredIff(bytes: nat, align: nat)
    requires bytes > 0 && align > 0 && align % bytes == 0
    ensures bytes > 1 <==> forall addr: nat, size: nat, x: nat ::
              size > 0 && addr <= x < addr + size ==>
                Covered(x, BurstsFrom(SpanFirst(addr, align), SpanLast(addr, size, align), bytes), bytes)
  {
    hide SpanFirst, SpanLast, BurstsFrom, Covered;
    if bytes > 1 {
      forall addr: nat, size: nat, x: nat | size > 0 && addr <= x < addr + size
        ensures Covered(x, BurstsFrom(SpanFirst(addr, align), SpanLast(addr, size, align), bytes), bytes)
      {
        RequestCovered(bytes, align, addr, size, x);
      }
    } else {
      LastByteMissed(align);
    }
  }

  /** With one-byte bursts the last byte of a granule is not timed. */
  lemma LastByteMissed(align: nat)
    requires align > 0
    ensures var e := align - 1; !Covered(e, BurstsFrom(SpanFirst(e, align), SpanLast(e, 1, align), 1), 1)
  {
    var e := align - 1;
    Digits(e, align, 0, e);
    var first, last := SpanFirst(e, align), SpanLast(e, 1, align);
    var bursts := BurstsFrom(first, last, 1);
    forall i | 0 <= i < |bursts| ensures bursts[i] < e {
      BurstsBelow(first, last, 1, i);
    }
  }

  lemma RequestCovered(bytes: nat, align: nat, addr: nat, size: nat, x: nat)
    requires bytes > 1 && align > 0 && align % bytes == 0 && size > 0 && addr <= x < addr + size
    ensures Covered(x, BurstsFrom(SpanFirst(addr, align), SpanLast(addr, size, align), bytes), bytes)
  {
    hide SpanFirst, SpanLast;
    var first, last := SpanFirst(addr, align), SpanLast(addr, size, align);
    SpanAligned(bytes, align, addr);
    SpanAligned(bytes, align, addr + size - 1);
    SpanBounds(align, addr, size);
    BurstBeforeLast(bytes, first, last, x);
    BurstsCover(first, last, bytes, x);
  }

  lemma SpanBounds(align: nat, addr: nat, size: nat)
    requires align > 0 && size > 0
    ensures 0 <= SpanFirst(addr, align) <= addr
    ensures addr + size - 1 <= SpanLast(addr, size, align)
    ensures SpanLast(addr, size, align) + 1 == SpanFirst(addr + size - 1, align) + align
  {
    DivNonNegative(addr, align);
    MulMono(0, addr / align, align);
  }

  lemma SpanAligned(bytes: nat, align: nat, addr: nat)
    requires bytes > 0 && align > 0 && align % bytes == 0
    ensures SpanFirst(addr, align) % bytes == 0 && (SpanFirst(addr, align) + align) % bytes == 0
  {
    var q := addr / align;
    MultipleIs(SpanFirst(addr, align), align, q);
    MultipleOfMultiple(SpanFirst(addr, align), align, bytes);
    Distribute(q, 1, align);
    MultipleIs(SpanFirst(addr, align) + align, align, q + 1);
    MultipleOfMultiple(SpanFirst(addr, align) + align, align, bytes);
  }

  /** The burst holding x starts a whole burst before the end of the span, so before its last byte. */
  lemma BurstBeforeLast(bytes: nat, first: nat, last: int, x: nat)
    requires bytes > 1 && first % bytes == 0 && (last + 1) % bytes == 0 && first <= x <= last
    ensures x - (x - first) % bytes < last
  {
    BurstStart(bytes, first, last, x, (x - first) / bytes, (x - first) % bytes);
  }

  lemma BurstStart(bytes: nat, first: nat, last: int, x: nat, k: int, m: int)
    requires bytes > 1 && first % bytes == 0 && (last + 1) % bytes == 0 && x <= last
    requires x - first == k * bytes + m && 0 <= m
    ensures x - m < last
  {
    ModAdd(first, bytes, k);
    MultipleGap(x - m, last + 1, bytes);
  }

  /** The memory after the bursts of a write carry `data`. */
  ghost function Overlay<V>(m: map<nat, V>, bursts: seq<nat>, data: nat -> V): map<nat, V> {
    if bursts == [] then m
    else var a := bursts[|bursts| - 1]; Overlay(m, bursts[..|bursts| - 1], data)[a := data(a)]
  }

  lemma OverlayOne<V>(m: map<nat, V>, bursts: seq<nat>, a: nat, data: nat -> V)
    ensures Overlay(m, bursts + [a], data) == Overlay(m, bursts, data)[a := data(a)]
  {
    assert (bursts + [a])[..|bursts|] == bursts;
  }
}
