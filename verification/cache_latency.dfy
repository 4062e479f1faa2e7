/**
  When the timing cache (`targets/hetero/timing_cache.cpp`, `access`) answers. A hit waits until the
  line's refill has landed; refills go one after another through the port to the next level; a
  write-through write goes through the port after them, as far as the store buffer does not hide it.
  Proved: which times bound the answer, over all lines of an access at once.
 */
module CacheLatency {
  import opened Arith
  import opened LruList

  /** Cycles of a hit, of a miss, of a line on the port, of a write on the port; and what the store buffer hides. */
  datatype Figures = Figures(hit: nat, miss: nat, refill: nat, write: nat, buffer: nat)

  /** From when on the port is free, when each line's last refill lands, and when the answer is ready so far. */
  datatype Clock = Clock(free: int, lands: map<nat, int>, ready: int)

  function Landing(lands: map<nat, int>, line: nat): int { if line in lands then lands[line] else 0 }

  /** One line of an access. */
  function LineTimed(f: Figures, k: Clock, line: nat, resident: bool, allocate: bool, next: nat, now: int): Clock {
    if resident then k.(ready := Max(k.ready, Landing(k.lands, line)))
    else if !allocate then k
    else
      var start := Max(now, k.free);
      var done := start + next + f.miss + f.refill;
      Clock(start + f.refill, k.lands[line := done], Max(k.ready, done))
  }

  /** Is line i of the access there when its turn comes? */
  ghost predicate HitsAt(sets: seq<seq<nat>>, ways: nat, first: nat, i: nat, allocate: bool)
    requires |sets| > 0 && ways > 0
  {
    Resident(TouchRun(sets, first, i, allocate, ways), first + i)
  }

  /** The lines of an access in turn. */
  ghost function RunTimed(f: Figures, k: Clock, sets: seq<seq<nat>>, ways: nat, first: nat, count: nat, allocate: bool,
                          next: nat, now: int): Clock
    requires |sets| > 0 && ways > 0
  {
    if count == 0 then k
    else
      LineTimed(f, RunTimed(f, k, sets, ways, first, count - 1, allocate, next, now), first + count - 1,
                HitsAt(sets, ways, first, count - 1, allocate), allocate, next, now)
  }

  /** A write handed to the store buffer. */
  function Buffered(f: Figures, k: Clock, now: int): Clock {
    var free := Max(now, k.free) + f.write;
    k.(free := free, ready := Max(k.ready, free - f.buffer))
  }

  /** A whole access that comes at `now`. */
  ghost function AccessTimed(f: Figures, free: int, lands: map<nat, int>, sets: seq<seq<nat>>, ways: nat, a: Access,
                             writeAllocate: bool, writeback: bool, next: nat, now: int): Clock
    requires |sets| > 0 && ways > 0
  {
    var k := RunTimed(f, Clock(free, lands, now + f.hit), sets, ways, a.first, a.count, !a.write || writeAllocate,
                      next, now);
    if a.write && !writeback then Buffered(f, k, now) else k
  }

  /* ---- What that comes to ---- */

  /** Refills follow one another: m of them take the port for m refill times, from when it is free. */
  function PortAfter(f: Figures, free: int, now: int, m: nat): int {
    if m == 0 then free else Max(now, free) + m * f.refill
  }

  lemma {:induction false} PortTaken(f: Figures, k: Clock, sets: seq<seq<nat>>, ways: nat, first: nat, count: nat,
                                     allocate: bool, next: nat, now: int)
    requires |sets| > 0 && ways > 0
    ensures var m := Misses(sets, first, count, allocate, ways);
            RunTimed(f, k, sets, ways, first, count, allocate, next, now).free ==
            PortAfter(f, k.free, now, if allocate then m else 0)
  {
    hide TouchRun, Resident;
    if count > 0 {
      PortTaken(f, k, sets, ways, first, count - 1, allocate, next, now);
      OneMoreRefill(f, k.free, now, Misses(sets, first, count - 1, allocate, ways));
    }
  }

  lemma OneMoreRefill(f: Figures, free: int, now: int, m: nat)
    ensures Max(now, PortAfter(f, free, now, m)) + f.refill == PortAfter(f, free, now, m + 1)
    ensures m > 0 ==> PortAfter(f, free, now, m) <= PortAfter(f, free, now, m + 1)
  {
    Distribute(m, 1, f.refill);
    MulMono(0, m, f.refill);
  }

  /**
    Where lines land. The line that misses as the m-th of the access lands when the port is through
    with m refills, and the next level and the miss have taken their time; all other lines stay.
   */
  lemma {:induction false} LandsAt(f: Figures, k: Clock, sets: seq<seq<nat>>, ways: nat, first: nat, count: nat,
                                   allocate: bool, next: nat, now: int, line: nat)
    requires |sets| > 0 && ways > 0
    ensures var lands := RunTimed(f, k, sets, ways, first, count, allocate, next, now).lands;
            if allocate && first <= line < first + count && !HitsAt(sets, ways, first, line - first, allocate)
            then line in lands &&
                 lands[line] == PortAfter(f, k.free, now, Misses(sets, first, line - first + 1, allocate, ways)) +
                                next + f.miss
            else Landing(lands, line) == Landing(k.lands, line)
  {
    hide TouchRun, Resident, PortAfter;
    if count > 0 {
      LandsAt(f, k, sets, ways, first, count - 1, allocate, next, now, line);
      PortTaken(f, k, sets, ways, first, count - 1, allocate, next, now);
      OneMoreRefill(f, k.free, now, Misses(sets, first, count - 1, allocate, ways));
    }
  }

  /** By time t the lines that hit have landed, and so has the last refill. */
  ghost predicate LandedBy(f: Figures, k: Clock, sets: seq<seq<nat>>, ways: nat, first: nat, count: nat, allocate: bool,
                           next: nat, now: int, t: int)
    requires |sets| > 0 && ways > 0
  {
    && (forall i: nat :: i < count && HitsAt(sets, ways, first, i, allocate) ==> Landing(k.lands, first + i) <= t)
    && var m := Misses(sets, first, count, allocate, ways);
       allocate && m > 0 ==> PortAfter(f, k.free, now, m) + next + f.miss <= t
  }

  /** The lines are ready by time t exactly if every line that hit has landed by then, and the last refill too. */
  lemma {:induction false} ReadyIff(f: Figures, k: Clock, sets: seq<seq<nat>>, ways: nat, first: nat, count: nat,
                                    allocate: bool, next: nat, now: int, t: int)
    requires |sets| > 0 && ways > 0
    ensures RunTimed(f, k, sets, ways, first, count, allocate, next, now).ready <= t <==>
            k.ready <= t && LandedBy(f, k, sets, ways, first, count, allocate, next, now, t)
  {
    hide TouchRun, Resident, PortAfter, HitsAt;
    if count > 0 {
      ReadyIff(f, k, sets, ways, first, count - 1, allocate, next, now, t);
      PortTaken(f, k, sets, ways, first, count - 1, allocate, next, now);
      OneMoreRefill(f, k.free, now, Misses(sets, first, count - 1, allocate, ways));
      LandsAt(f, k, sets, ways, first, count - 1, allocate, next, now, first + count - 1);
      LandedOneMore(f, k, sets, ways, first, count, allocate, next, now, t);
    }
  }

  lemma LandedOneMore(f: Figures, k: Clock, sets: seq<seq<nat>>, ways: nat, first: nat, count: nat, allocate: bool,
                      next: nat, now: int, t: int)
    requires |sets| > 0 && ways > 0 && count > 0
    ensures Misses(sets, first, count, allocate, ways) ==
            Misses(sets, first, count - 1, allocate, ways) +
            (if HitsAt(sets, ways, first, count - 1, allocate) then 0 else 1)
    ensures LandedBy(f, k, sets, ways, first, count, allocate, next, now, t) <==>
            if HitsAt(sets, ways, first, count - 1, allocate)
            then LandedBy(f, k, sets, ways, first, count - 1, allocate, next, now, t) &&
                 Landing(k.lands, first + count - 1) <= t
            else LandedBy(f, k, sets, ways, first, count - 1, allocate, next, now, t) &&
                 (allocate ==>
                    PortAfter(f, k.free, now, Misses(sets, first, count - 1, allocate, ways) + 1) + next + f.miss <= t)
  {
    hide TouchRun, Resident, PortAfter;
    OneMoreRefill(f, k.free, now, Misses(sets, first, count - 1, allocate, ways));
  }

  /**
    The whole access is answered by time t exactly if the lookup is through, the lines have landed,
    and what the store buffer cannot hide of a write-through write has gone out.
   */
  lemma AnsweredIff(f: Figures, free: int, lands: map<nat, int>, sets: seq<seq<nat>>, ways: nat, a: Access,
                    writeAllocate: bool, writeback: bool, next: nat, now: int, t: int)
    requires |sets| > 0 && ways > 0
    ensures var allocate, k := !a.write || writeAllocate, Clock(free, lands, now + f.hit);
            var m := if allocate then Misses(sets, a.first, a.count, allocate, ways) else 0;
            AccessTimed(f, free, lands, sets, ways, a, writeAllocate, writeback, next, now).ready <= t <==>
            && now + f.hit <= t
            && LandedBy(f, k, sets, ways, a.first, a.count, allocate, next, now, t)
            && (a.write && !writeback ==> Max(now, PortAfter(f, free, now, m)) + f.write - f.buffer <= t)
  {
    hide RunTimed, LandedBy, Misses, PortAfter;
    var allocate, k := !a.write || writeAllocate, Clock(free, lands, now + f.hit);
    ReadyIff(f, k, sets, ways, a.first, a.count, allocate, next, now, t);
    PortTaken(f, k, sets, ways, a.first, a.count, allocate, next, now);
  }

  /** A read whose lines are all resident and landed takes the hit latency, and does not touch the port. */
  lemma PlainHit(f: Figures, free: int, lands: map<nat, int>, sets: seq<seq<nat>>, ways: nat, first: nat, count: nat,
                 writeAllocate: bool, writeback: bool, next: nat, now: int)
    requires WellKept(sets, ways) && AllResident(sets, first, count)
    requires forall line: nat :: first <= line < first + count ==> Landing(lands, line) <= now + f.hit
    ensures var k := AccessTimed(f, free, lands, sets, ways, Access(first, count, false), writeAllocate, writeback,
                                 next, now);
            k.ready == now + f.hit && k.free == free
  {
    var k := Clock(free, lands, now + f.hit);
    NoMissIff(sets, first, count, true, ways);
    hide RunTimed, HitsAt, Misses, AllResident, WellKept;
    PortTaken(f, k, sets, ways, first, count, true, next, now);
    ReadyIff(f, k, sets, ways, first, count, true, next, now, now + f.hit);
    ReadyIff(f, k, sets, ways, first, count, true, next, now, now + f.hit - 1);
  }
}
