/**
  What the tag array of the timing cache (`targets/hetero/timing_cache.cpp`) is meant to be: for
  each set a list of the resident lines, most recently used first, no longer than the number of
  ways. Proved about it: a cache with more ways always holds what one with fewer holds, and when
  an access leaves all its lines resident.
 */
module LruList {
  import opened Arith

  /* ---- One set ---- */

  ghost predicate Unique(l: seq<nat>) { forall i, j :: 0 <= i < j < |l| ==> l[i] != l[j] }

  function Without(l: seq<nat>, x: nat): seq<nat> {
    if l == [] then []
    else if l[|l| - 1] == x then Without(l[..|l| - 1], x)
    else Without(l[..|l| - 1], x) + [l[|l| - 1]]
  }

  /**
    A reference to line x: it becomes the most recent; a missing line is brought in if it is to be
    allocated, the oldest goes.
   */
  function Touch(l: seq<nat>, x: nat, allocate: bool, ways: nat): seq<nat>
    requires ways > 0
  {
    if x in l then [x] + Without(l, x)
    else if allocate then [x] + (if |l| < ways then l else l[..ways - 1])
    else l
  }

  lemma {:induction false} WithoutMembers(l: seq<nat>, x: nat)
    requires Unique(l)
    ensures Unique(Without(l, x)) && x !in Without(l, x)
    ensures forall y :: y in Without(l, x) <==> y in l && y != x
    ensures |Without(l, x)| == |l| - (if x in l then 1 else 0)
  {
    if l != [] {
      var front, last := l[..|l| - 1], l[|l| - 1];
      assert l == front + [last] && last !in front;
      WithoutMembers(front, x);
    }
  }

  /** Taking out the line at position p. */
  lemma {:induction false} WithoutAt(l: seq<nat>, p: nat)
    requires Unique(l) && p < |l|
    ensures Without(l, l[p]) == l[..p] + l[p + 1..]
  {
    var n := |l| - 1;
    if p < n {
      WithoutAt(l[..n], p);
      assert l[n] != l[p] && l[..n][p] == l[p];
      assert l[..n][..p] + l[..n][p + 1..] + [l[n]] == l[..p] + l[p + 1..];
    } else {
      WithoutNothing(l[..n], l[p]);
      assert l[..n] == l[..p] + l[p + 1..];
    }
  }

  lemma {:induction false} WithoutNothing(l: seq<nat>, x: nat)
    requires x !in l
    ensures Without(l, x) == l
  {
    if l != [] {
      assert l == l[..|l| - 1] + [l[|l| - 1]];
      WithoutNothing(l[..|l| - 1], x);
    }
  }

  lemma TouchKeeps(l: seq<nat>, x: nat, allocate: bool, ways: nat)
    requires Unique(l) && |l| <= ways && ways > 0
    ensures var l' := Touch(l, x, allocate, ways);
            && Unique(l') && |l'| <= ways
            && (x in l || allocate ==> |l'| > 0 && l'[0] == x)
            && (forall y :: y in l' ==> y in l || y == x)
  {
    WithoutMembers(l, x);
  }

  /* ---- More ways hold more lines ---- */

  /** The lines of s stand in b, in the same order. */
  ghost predicate Within(s: seq<nat>, b: seq<nat>) {
    s == [] ||
    (b != [] &&
     if s[|s| - 1] == b[|b| - 1] then Within(s[..|s| - 1], b[..|b| - 1]) else Within(s, b[..|b| - 1]))
  }

  lemma {:induction false} WithinMembers(s: seq<nat>, b: seq<nat>, x: nat)
    requires Within(s, b) && x in s
    ensures x in b
  {
    if s[|s| - 1] == b[|b| - 1] {
      if x in s[..|s| - 1] { WithinMembers(s[..|s| - 1], b[..|b| - 1], x); }
    } else {
      WithinMembers(s, b[..|b| - 1], x);
    }
  }

  lemma {:induction false} WithinFront(x: nat, s: seq<nat>, b: seq<nat>)
    requires Within(s, b) && x !in b
    ensures Within([x] + s, [x] + b)
  {
    if s == [] {
      SingleWithin(x, b);
      assert [x] + s == [x];
    } else {
      var s1, b1 := s[..|s| - 1], b[..|b| - 1];
      assert ([x] + s)[..|s|] == [x] + s1 && ([x] + b)[..|b|] == [x] + b1;
      if s[|s| - 1] == b[|b| - 1] { WithinFront(x, s1, b1); } else { WithinFront(x, s, b1); }
    }
  }

  lemma {:induction false} SingleWithin(x: nat, b: seq<nat>)
    requires x !in b
    ensures Within([x], [x] + b)
  {
    if b != [] {
      SingleWithin(x, b[..|b| - 1]);
      assert ([x] + b)[..|b|] == [x] + b[..|b| - 1];
    }
  }

  /** Taking a line out of both, or out of b alone if s does not have it. */
  lemma {:induction false} WithinWithout(s: seq<nat>, b: seq<nat>, x: nat)
    requires Within(s, b) && Unique(s) && Unique(b)
    ensures Within(Without(s, x), Without(b, x))
  {
    if s != [] {
      var s1, b1, y, z := s[..|s| - 1], b[..|b| - 1], s[|s| - 1], b[|b| - 1];
      if y == z {
        WithinWithout(s1, b1, x);
        WithinBoth(Without(s1, x), Without(b1, x), y);
      } else {
        WithinWithout(s, b1, x);
        WithinAgain(Without(s, x), Without(b1, x), z);
      }
    }
  }

  lemma WithinBoth(s: seq<nat>, b: seq<nat>, z: nat)
    requires Within(s, b)
    ensures Within(s + [z], b + [z])
  {
    assert (s + [z])[..|s|] == s && (b + [z])[..|b|] == b;
  }

  /** Another line at the end of b changes nothing. */
  lemma {:induction false} WithinAgain(s: seq<nat>, b: seq<nat>, z: nat)
    requires Within(s, b)
    ensures Within(s, b + [z])
    decreases |b|, 1
  {
    assert (b + [z])[..|b|] == b;
    if s != [] && s[|s| - 1] == z {
      WithinShorter(s, b);
    }
  }

  lemma {:induction false} WithinShorter(s: seq<nat>, b: seq<nat>)
    requires Within(s, b) && s != []
    ensures Within(s[..|s| - 1], b)
    decreases |b|, 0
  {
    var s1, b1 := s[..|s| - 1], b[..|b| - 1];
    if s[|s| - 1] == b[|b| - 1] {
      WithinAgain(s1, b1, b[|b| - 1]);
    } else {
      WithinShorter(s, b1);
      WithinAgain(s1, b1, b[|b| - 1]);
    }
    assert b1 + [b[|b| - 1]] == b;
  }

  /** The oldest line of b is the oldest of s, if s has it at all. */
  lemma {:induction false} OldestGoes(s: seq<nat>, b: seq<nat>)
    requires Within(s, b) && Unique(s) && Unique(b) && s != []
    ensures Within(s[..|s| - 1], b[..|b| - 1])
  {
    if s[|s| - 1] != b[|b| - 1] {
      WithinShorter(s, b[..|b| - 1]);
    }
  }

  /** A set with `few` ways beside one with `many`: while the small one has room it holds the very same. */
  ghost predicate Beside(s: seq<nat>, b: seq<nat>, few: nat, many: nat) {
    && 0 < few <= many && Unique(s) && Unique(b) && |s| <= few && |b| <= many
    && Within(s, b) && (|s| < few ==> s == b)
  }

  lemma UniqueFront(x: nat, l: seq<nat>)
    requires Unique(l) && x !in l
    ensures Unique([x] + l)
  {
  }

  /** A line both have becomes the most recent of both. */
  lemma HitBoth(s: seq<nat>, b: seq<nat>, few: nat, many: nat, x: nat)
    requires Beside(s, b, few, many) && x in b && x in s
    ensures Beside([x] + Without(s, x), [x] + Without(b, x), few, many)
  {
    WithoutMembers(s, x);
    WithoutMembers(b, x);
    WithinWithout(s, b, x);
    hide Within, Without, Unique;
    UniqueFront(x, Without(s, x));
    UniqueFront(x, Without(b, x));
    WithinFront(x, Without(s, x), Without(b, x));
  }

  /** A line only the large one has: the small one brings it in, or leaves it out. */
  lemma HitLarge(s: seq<nat>, b: seq<nat>, few: nat, many: nat, x: nat)
    requires Beside(s, b, few, many) && x in b && x !in s && |s| == few
    ensures Beside([x] + s[..few - 1], [x] + Without(b, x), few, many) && Beside(s, [x] + Without(b, x), few, many)
  {
    WithoutMembers(b, x);
    WithinWithout(s, b, x);
    WithoutNothing(s, x);
    hide Within, Without;
    UniqueFront(x, s[..few - 1]);
    UniqueFront(x, Without(b, x));
    WithinShorter(s, Without(b, x));
    WithinFront(x, s[..few - 1], Without(b, x));
    WithinBehind(x, s, Without(b, x));
  }

  /** A line s does not have may stand anywhere in b. */
  lemma {:induction false} WithinBehind(x: nat, s: seq<nat>, b: seq<nat>)
    requires Within(s, b)
    ensures Within(s, [x] + b)
  {
    if s != [] {
      var s1, b1 := s[..|s| - 1], b[..|b| - 1];
      assert ([x] + b)[..|b|] == [x] + b1;
      if s[|s| - 1] == b[|b| - 1] { WithinBehind(x, s1, b1); } else { WithinBehind(x, s, b1); }
    }
  }

  /** A line neither has comes into both. */
  lemma MissBeside(s: seq<nat>, b: seq<nat>, few: nat, many: nat, x: nat)
    requires Beside(s, b, few, many) && x !in b && x !in s
    ensures Beside([x] + (if |s| < few then s else s[..few - 1]), [x] + (if |b| < many then b else b[..many - 1]), few,
                   many)
  {
    var ks, kb := if |s| < few then s else s[..few - 1], if |b| < many then b else b[..many - 1];
    if |s| == few {
      if |b| == many { OldestGoes(s, b); } else { WithinShorter(s, b); }
    }
    WithinFront(x, ks, kb);
  }

  /** Every reference keeps the smaller set within the larger, and what hits in the small one hits in the large one. */
  lemma TouchBeside(s: seq<nat>, b: seq<nat>, few: nat, many: nat, x: nat, allocate: bool)
    requires Beside(s, b, few, many)
    ensures Beside(Touch(s, x, allocate, few), Touch(b, x, allocate, many), few, many)
    ensures x in s ==> x in b
  {
    if x in s { WithinMembers(s, b, x); }
    hide Beside, Within;
    if x in b {
      RoomMeansSame(s, b, few, many);
      if x in s { HitBoth(s, b, few, many, x); } else { HitLarge(s, b, few, many, x); }
    } else if allocate {
      MissBeside(s, b, few, many, x);
    }
  }

  lemma RoomMeansSame(s: seq<nat>, b: seq<nat>, few: nat, many: nat)
    requires Beside(s, b, few, many)
    ensures |s| <= few && |b| <= many && (|s| < few ==> s == b)
  {
  }

  /* ---- A whole cache, and runs of accesses ---- */

  /** The set a line belongs to: its low bits. */
  function SetOf(line: nat, n: nat): (s: nat)
    requires n > 0
    ensures s < n
  {
    line % n
  }

  function TouchLine(sets: seq<seq<nat>>, line: nat, allocate: bool, ways: nat): seq<seq<nat>>
    requires |sets| > 0 && ways > 0
  {
    var s := SetOf(line, |sets|);
    sets[s := Touch(sets[s], line, allocate, ways)]
  }

  /** The lines first, first + 1, ... of one access, in order. */
  function TouchRun(sets: seq<seq<nat>>, first: nat, count: nat, allocate: bool, ways: nat): (r: seq<seq<nat>>)
    requires |sets| > 0 && ways > 0
    ensures |r| == |sets|
  {
    if count == 0 then sets
    else TouchLine(TouchRun(sets, first, count - 1, allocate, ways), first + count - 1, allocate, ways)
  }

  function Resident(sets: seq<seq<nat>>, line: nat): bool
    requires |sets| > 0
  {
    line in sets[SetOf(line, |sets|)]
  }

  function Misses(sets: seq<seq<nat>>, first: nat, count: nat, allocate: bool, ways: nat): (m: nat)
    requires |sets| > 0 && ways > 0
    ensures m <= count
  {
    if count == 0 then 0
    else Misses(sets, first, count - 1, allocate, ways) +
         (if Resident(TouchRun(sets, first, count - 1, allocate, ways), first + count - 1) then 0 else 1)
  }

  /** One access: the lines it touches, and whether it writes. */
  datatype Access = Access(first: nat, count: nat, write: bool)

  function Replay(sets: seq<seq<nat>>, trace: seq<Access>, writeAllocate: bool, ways: nat): (r: seq<seq<nat>>)
    requires |sets| > 0 && ways > 0
    ensures |r| == |sets|
  {
    if trace == [] then sets
    else
      var a := trace[|trace| - 1];
      TouchRun(Replay(sets, trace[..|trace| - 1], writeAllocate, ways), a.first, a.count,
               !a.write || writeAllocate, ways)
  }

  function TraceMisses(sets: seq<seq<nat>>, trace: seq<Access>, writeAllocate: bool, ways: nat): nat
    requires |sets| > 0 && ways > 0
  {
    if trace == [] then 0
    else
      var a := trace[|trace| - 1];
      TraceMisses(sets, trace[..|trace| - 1], writeAllocate, ways) +
      Misses(Replay(sets, trace[..|trace| - 1], writeAllocate, ways), a.first, a.count, !a.write || writeAllocate, ways)
  }

  ghost predicate AllBeside(s: seq<seq<nat>>, b: seq<seq<nat>>, few: nat, many: nat) {
    && |s| == |b| > 0 && 0 < few <= many
    && forall i :: 0 <= i < |s| ==> Beside(s[i], b[i], few, many)
  }

  /** A run is one line after another. */
  lemma RunStep(sets: seq<seq<nat>>, first: nat, count: nat, allocate: bool, ways: nat)
    requires |sets| > 0 && ways > 0 && count > 0
    ensures var mid, line := TouchRun(sets, first, count - 1, allocate, ways), first + count - 1;
            && TouchRun(sets, first, count, allocate, ways) == TouchLine(mid, line, allocate, ways)
            && Misses(sets, first, count, allocate, ways) ==
               Misses(sets, first, count - 1, allocate, ways) + (if Resident(mid, line) then 0 else 1)
  {
  }

  lemma LineBeside(s: seq<seq<nat>>, b: seq<seq<nat>>, few: nat, many: nat, line: nat, allocate: bool)
    requires AllBeside(s, b, few, many)
    ensures AllBeside(TouchLine(s, line, allocate, few), TouchLine(b, line, allocate, many), few, many)
    ensures Resident(s, line) ==> Resident(b, line)
  {
    hide Beside, Touch, SetOf;
    var i := SetOf(line, |s|);
    TouchBeside(s[i], b[i], few, many, line, allocate);
  }

  lemma {:induction false} RunBeside(s: seq<seq<nat>>, b: seq<seq<nat>>, few: nat, many: nat, first: nat, count: nat,
                                     allocate: bool)
    requires AllBeside(s, b, few, many)
    ensures AllBeside(TouchRun(s, first, count, allocate, few), TouchRun(b, first, count, allocate, many), few, many)
    ensures Misses(b, first, count, allocate, many) <= Misses(s, first, count, allocate, few)
  {
    hide TouchLine, Resident, Beside;
    if count > 0 {
      RunStep(s, first, count, allocate, few);
      RunStep(b, first, count, allocate, many);
      RunBeside(s, b, few, many, first, count - 1, allocate);
      LineBeside(TouchRun(s, first, count - 1, allocate, few), TouchRun(b, first, count - 1, allocate, many), few, many,
                 first + count - 1, allocate);
    }
  }

  /**
    LRU inclusion. Over any run of accesses, with or without allocation on writes, two caches with
    the same sets and lines that start empty: the one with more ways holds whatever the other
    holds, and never misses more often.
   */
  lemma {:induction false} Inclusion(n: nat, trace: seq<Access>, writeAllocate: bool, few: nat, many: nat)
    requires 0 < n && 0 < few <= many
    ensures AllBeside(Replay(Empty(n), trace, writeAllocate, few), Replay(Empty(n), trace, writeAllocate, many), few,
                      many)
    ensures forall line :: Resident(Replay(Empty(n), trace, writeAllocate, few), line) ==>
              Resident(Replay(Empty(n), trace, writeAllocate, many), line)
    ensures TraceMisses(Empty(n), trace, writeAllocate, many) <= TraceMisses(Empty(n), trace, writeAllocate, few)
  {
    if trace == [] {
      assert forall i :: 0 <= i < n ==> Beside(Empty(n)[i], Empty(n)[i], few, many);
    } else {
      var a := trace[|trace| - 1];
      Inclusion(n, trace[..|trace| - 1], writeAllocate, few, many);
      RunBeside(Replay(Empty(n), trace[..|trace| - 1], writeAllocate, few),
                Replay(Empty(n), trace[..|trace| - 1], writeAllocate, many),
                few, many, a.first, a.count, !a.write || writeAllocate);
    }
    var s, b := Replay(Empty(n), trace, writeAllocate, few), Replay(Empty(n), trace, writeAllocate, many);
    forall line | Resident(s, line) ensures Resident(b, line) {
      WithinMembers(s[SetOf(line, n)], b[SetOf(line, n)], line);
    }
  }

  function Empty(n: nat): (e: seq<seq<nat>>)
    ensures |e| == n && forall i :: 0 <= i < n ==> e[i] == []
  {
    seq(n, _ => [])
  }

  /* ---- What one access leaves behind ---- */

  /** Lines are unique, within the ways, and in their own set. */
  ghost predicate WellKept(sets: seq<seq<nat>>, ways: nat) {
    && |sets| > 0 && ways > 0
    && (forall s :: 0 <= s < |sets| ==> Unique(sets[s]) && |sets[s]| <= ways)
    && forall s, line :: 0 <= s < |sets| && line in sets[s] ==> SetOf(line, |sets|) == s
  }

  lemma TouchWellKept(sets: seq<seq<nat>>, line: nat, allocate: bool, ways: nat)
    requires WellKept(sets, ways)
    ensures WellKept(TouchLine(sets, line, allocate, ways), ways)
  {
    hide Touch, Unique;
    TouchKeeps(sets[SetOf(line, |sets|)], line, allocate, ways);
  }

  lemma {:induction false} RunWellKept(sets: seq<seq<nat>>, first: nat, count: nat, allocate: bool, ways: nat)
    requires WellKept(sets, ways)
    ensures WellKept(TouchRun(sets, first, count, allocate, ways), ways)
  {
    if count > 0 {
      RunWellKept(sets, first, count - 1, allocate, ways);
      TouchWellKept(TouchRun(sets, first, count - 1, allocate, ways), first + count - 1, allocate, ways);
    }
  }

  ghost predicate AllResident(sets: seq<seq<nat>>, first: nat, count: nat)
    requires |sets| > 0
  {
    forall line: nat :: first <= line < first + count ==> Resident(sets, line)
  }

  ghost predicate SameLines(a: seq<seq<nat>>, b: seq<seq<nat>>)
    requires |a| > 0 && |b| > 0
  {
    forall line: nat :: Resident(a, line) <==> Resident(b, line)
  }

  /** An access misses nowhere exactly when all its lines were resident before it; then it changes none. */
  lemma {:induction false} NoMissIff(sets: seq<seq<nat>>, first: nat, count: nat, allocate: bool, ways: nat)
    requires WellKept(sets, ways)
    ensures Misses(sets, first, count, allocate, ways) == 0 <==> AllResident(sets, first, count)
    ensures Misses(sets, first, count, allocate, ways) == 0 ==>
              SameLines(TouchRun(sets, first, count, allocate, ways), sets)
  {
    if count == 0 {
      hide WellKept, Resident;
    } else {
      hide *;
      NoMissIff(sets, first, count - 1, allocate, ways);
      RunWellKept(sets, first, count - 1, allocate, ways);
      NoMissStep(sets, first, count, allocate, ways);
    }
  }

  lemma NoMissStep(sets: seq<seq<nat>>, first: nat, count: nat, allocate: bool, ways: nat)
    requires |sets| > 0 && ways > 0 && count > 0 && WellKept(TouchRun(sets, first, count - 1, allocate, ways), ways)
    requires Misses(sets, first, count - 1, allocate, ways) == 0 <==> AllResident(sets, first, count - 1)
    requires Misses(sets, first, count - 1, allocate, ways) == 0 ==>
               SameLines(TouchRun(sets, first, count - 1, allocate, ways), sets)
    ensures Misses(sets, first, count, allocate, ways) == 0 <==> AllResident(sets, first, count)
    ensures Misses(sets, first, count, allocate, ways) == 0 ==>
              SameLines(TouchRun(sets, first, count, allocate, ways), sets)
  {
    hide *;
    var mid, line := TouchRun(sets, first, count - 1, allocate, ways), first + count - 1;
    OneMoreResident(sets, first, count);
    RunStep(sets, first, count, allocate, ways);
    if Misses(sets, first, count - 1, allocate, ways) == 0 {
      SameAt(mid, sets, line);
      if Resident(mid, line) {
        HitKeepsLines(mid, line, allocate, ways);
        SameTrans(TouchLine(mid, line, allocate, ways), mid, sets);
      }
    }
  }

  lemma SameAt(a: seq<seq<nat>>, b: seq<seq<nat>>, line: nat)
    requires |a| > 0 && |b| > 0 && SameLines(a, b)
    ensures Resident(a, line) <==> Resident(b, line)
  {
  }

  lemma SameTrans(a: seq<seq<nat>>, b: seq<seq<nat>>, c: seq<seq<nat>>)
    requires |a| > 0 && |b| > 0 && |c| > 0 && SameLines(a, b) && SameLines(b, c)
    ensures SameLines(a, c)
  {
    hide Resident;
  }

  lemma OneMoreResident(sets: seq<seq<nat>>, first: nat, count: nat)
    requires |sets| > 0 && count > 0
    ensures AllResident(sets, first, count) <==>
            AllResident(sets, first, count - 1) && Resident(sets, first + count - 1)
  {
  }

  lemma HitKeepsLines(sets: seq<seq<nat>>, line: nat, allocate: bool, ways: nat)
    requires WellKept(sets, ways) && Resident(sets, line)
    ensures SameLines(TouchLine(sets, line, allocate, ways), sets)
  {
    WithoutMembers(sets[SetOf(line, |sets|)], line);
  }

  /** How many later lines of the run share the set of `line`, once the run has come to `cur`. */
  function Age(cur: nat, line: nat, n: nat): (a: nat)
    requires line < cur && n > 0
  {
    DivNonNegative(cur - 1 - line, n);
    (cur - 1 - line) / n
  }

  lemma AgeGrows(cur: nat, line: nat, n: nat)
    requires line < cur && n > 0
    ensures Age(cur + 1, line, n) == Age(cur, line, n) + (if SetOf(cur, n) == SetOf(line, n) then 1 else 0)
    ensures SetOf(cur, n) == SetOf(line, n) ==> cur == line + (Age(cur, line, n) + 1) * n
  {
    var k, m := (cur - line) / n, (cur - line) % n;
    ModAdd(line + m, n, k);
    assert cur == line + m + k * n;
    if m == 0 {
      Distribute(k, -1, n);
      Digits(cur - 1 - line, n, k - 1, n - 1);
    } else {
      Digits(cur - 1 - line, n, k, m - 1);
      SameSet(line, m, n);
    }
  }

  lemma SameSet(line: nat, m: nat, n: nat)
    requires 0 < m < n
    ensures (line + m) % n != line % n
  {
    var q, r := line / n, line % n;
    if r + m < n { Digits(line + m, n, q, r + m); } else { Distribute(q, 1, n); Digits(line + m, n, q + 1, r + m - n); }
  }

  /** Steps of n from a line of the run stay in its set and are one younger each. */
  lemma AgeSteps(cur: nat, line: nat, n: nat, k: nat)
    requires n > 0 && line + k * n < cur
    ensures line < cur && Age(cur, line, n) == Age(cur, line + k * n, n) + k
    ensures SetOf(line + k * n, n) == SetOf(line, n)
  {
    ModAdd(cur - 1 - line - k * n, n, k);
    ModAdd(line, n, k);
    assert k * n >= 0;
  }

  /** The run's lines stand at the front of their sets, in order of age, as far as the ways go. */
  ghost predicate Fronted(sets: seq<seq<nat>>, first: nat, cur: nat, ways: nat)
    requires |sets| > 0
  {
    forall line: nat :: first <= line < cur && Age(cur, line, |sets|) < ways ==> AtFront(sets, cur, line)
  }

  ghost predicate AtFront(sets: seq<seq<nat>>, cur: nat, line: nat)
    requires |sets| > 0 && line < cur
  {
    var members, a := sets[SetOf(line, |sets|)], Age(cur, line, |sets|);
    a < |members| && members[a] == line
  }

  /**
    In the set the run comes to next, the lines already at the front are all younger than the next line's
    old place.
   */
  lemma NextNotInFront(sets: seq<seq<nat>>, first: nat, cur: nat, line: nat, ways: nat, p: nat)
    requires WellKept(sets, ways) && Fronted(sets, first, cur, ways) && first <= line < cur
    requires SetOf(line, |sets|) == SetOf(cur, |sets|) && p <= Age(cur, line, |sets|) < ways
    ensures p < |sets[SetOf(cur, |sets|)]| && sets[SetOf(cur, |sets|)][p] != cur
  {
    var n := |sets|;
    var a := Age(cur, line, n);
    AgeGrows(cur, line, n);
    MulStep(a - p, a + 1, n);
    MulMono(0, a - p, n);
    var younger := line + (a - p) * n;
    AgeSteps(cur, line, n, a - p);
    assert AtFront(sets, cur, younger);
  }

  lemma FrontStep(sets: seq<seq<nat>>, first: nat, cur: nat, ways: nat)
    requires WellKept(sets, ways) && Fronted(sets, first, cur, ways)
    ensures Fronted(TouchLine(sets, cur, true, ways), first, cur + 1, ways)
  {
    var after, n, next := TouchLine(sets, cur, true, ways), |sets|, cur + 1;
    forall line: nat | first <= line < next && Age(next, line, n) < ways ensures AtFront(after, next, line) {
      if line == cur {
        Digits(0, n, 0, 0);
      } else {
        AgeGrows(cur, line, n);
        assert AtFront(sets, cur, line);
        if SetOf(line, n) == SetOf(cur, n) {
          FrontMoves(sets, first, cur, line, ways);
        }
      }
    }
  }

  /** A line of the run in the set just touched is one place further back. */
  lemma FrontMoves(sets: seq<seq<nat>>, first: nat, cur: nat, line: nat, ways: nat)
    requires WellKept(sets, ways) && Fronted(sets, first, cur, ways) && first <= line < cur
    requires SetOf(line, |sets|) == SetOf(cur, |sets|) && Age(cur, line, |sets|) + 1 < ways && AtFront(sets, cur, line)
    ensures AtFront(TouchLine(sets, cur, true, ways), cur + 1, line)
  {
    hide WellKept, Fronted, Age, SetOf;
    AgeGrows(cur, line, |sets|);
    var l, a := sets[SetOf(cur, |sets|)], Age(cur, line, |sets|);
    if cur in l {
      var p :| 0 <= p < |l| && l[p] == cur;
      if p <= a { NextNotInFront(sets, first, cur, line, ways, p); }
      SetUnique(sets, ways, SetOf(cur, |sets|));
      WithoutAt(l, p);
    }
  }

  lemma SetUnique(sets: seq<seq<nat>>, ways: nat, s: nat)
    requires WellKept(sets, ways) && s < |sets|
    ensures Unique(sets[s]) && |sets[s]| <= ways
  {
  }

  lemma {:induction false} RunFronted(sets: seq<seq<nat>>, first: nat, count: nat, ways: nat)
    requires WellKept(sets, ways)
    ensures Fronted(TouchRun(sets, first, count, true, ways), first, first + count, ways)
  {
    if count == 0 {
      NoneFronted(sets, first, ways);
    } else {
      hide *;
      RunFronted(sets, first, count - 1, ways);
      RunWellKept(sets, first, count - 1, true, ways);
      FrontedOneMore(sets, first, count, ways);
    }
  }

  lemma FrontedOneMore(sets: seq<seq<nat>>, first: nat, count: nat, ways: nat)
    requires |sets| > 0 && ways > 0 && count > 0 && WellKept(TouchRun(sets, first, count - 1, true, ways), ways)
    requires Fronted(TouchRun(sets, first, count - 1, true, ways), first, first + (count - 1), ways)
    ensures Fronted(TouchRun(sets, first, count, true, ways), first, first + count, ways)
  {
    hide *;
    RunStep(sets, first, count, true, ways);
    FrontStep(TouchRun(sets, first, count - 1, true, ways), first, first + (count - 1), ways);
    assert first + (count - 1) + 1 == first + count;
  }

  lemma NoneFronted(sets: seq<seq<nat>>, first: nat, ways: nat)
    requires |sets| > 0 && ways > 0
    ensures Fronted(sets, first, first, ways) && TouchRun(sets, first, 0, true, ways) == sets
  {
  }

  /**
    After an allocating access every line it touched is resident if and only if they number at most sets
    times ways.
   */
  lemma SpanResidentIff(sets: seq<seq<nat>>, first: nat, count: nat, ways: nat)
    requires WellKept(sets, ways)
    ensures AllResident(TouchRun(sets, first, count, true, ways), first, count) <==> count <= ways * |sets|
  {
    var after := TouchRun(sets, first, count, true, ways);
    RunFronted(sets, first, count, ways);
    RunWellKept(sets, first, count, true, ways);
    hide WellKept, Fronted, TouchRun;
    if count <= ways * |sets| {
      ShortSpan(after, first, count, ways);
    } else {
      MulMono(0, ways, |sets|);
      FirstIsGone(after, first, first + count, ways);
    }
  }

  /** A write of two lines to a cache of one: the first line is gone when the second is in. */
  lemma LongSpanExample()
    ensures !Resident(TouchRun(Empty(1), 0, 2, true, 1), 0) && Resident(TouchRun(Empty(1), 0, 2, true, 1), 1)
  {
    var none := Empty(1);
    var l: seq<nat> := [];
    assert Touch(l, 0, true, 1) == [0] && Touch([0], 1, true, 1) == [1];
    var one := TouchLine(none, 0, true, 1);
    assert one[0] == [0] && TouchLine(one, 1, true, 1)[0] == [1];
    assert TouchRun(none, 0, 1, true, 1) == one;
    assert TouchRun(none, 0, 2, true, 1) == TouchLine(one, 1, true, 1);
  }

  lemma ShortSpan(sets: seq<seq<nat>>, first: nat, count: nat, ways: nat)
    requires |sets| > 0 && Fronted(sets, first, first + count, ways) && count <= ways * |sets|
    ensures AllResident(sets, first, count)
  {
    forall line | first <= line < first + count ensures Resident(sets, line) {
      AgeBound(first + count, line, |sets|, ways);
      hide Age;
      assert AtFront(sets, first + count, line);
    }
  }

  lemma AgeBound(cur: nat, line: nat, n: nat, ways: nat)
    requires n > 0 && line < cur <= line + ways * n
    ensures Age(cur, line, n) < ways
  {
    var a := (cur - 1 - line) / n;
    if a >= ways { MulMono(ways, a, n); }
  }

  lemma FirstIsGone(sets: seq<seq<nat>>, first: nat, cur: nat, ways: nat)
    requires WellKept(sets, ways) && Fronted(sets, first, cur, ways) && first + ways * |sets| < cur
    ensures !Resident(sets, first)
  {
    var n, l := |sets|, sets[SetOf(first, |sets|)];
    MulMono(0, ways, n);
    AgeSteps(cur, first, n, ways);
    forall p: nat | p < |l| ensures l[p] != first {
      FrontEntry(sets, first, cur, ways, p);
    }
  }

  lemma FrontEntry(sets: seq<seq<nat>>, first: nat, cur: nat, ways: nat, p: nat)
    requires WellKept(sets, ways) && Fronted(sets, first, cur, ways) && first < cur
    requires ways <= Age(cur, first, |sets|) && p < |sets[SetOf(first, |sets|)]|
    ensures sets[SetOf(first, |sets|)][p] != first
  {
    var n, a := |sets|, Age(cur, first, |sets|);
    SetUnique(sets, ways, SetOf(first, n));
    assert p < ways <= a;
    assert cur - 1 - first == a * n + (cur - 1 - first) % n;
    MulMono(a - p, a, n);
    MulPositive(a - p, n);
    AgeSteps(cur, first, n, a - p);
    var line := first + (a - p) * n;
    assert AtFront(sets, cur, line);
  }
}
