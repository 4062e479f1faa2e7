/**
  The timing cache (`targets/hetero/timing_cache.cpp`): a tag array, the port to the next level,
  and in write-back mode the dirty lines. `Lists` is the recency list each set stands for; the
  methods are proved to move it as `LruList` says. Two ghost multisets follow the dirty lines:
  which turned dirty, and which were written back.
 */
module TimingCache {
  import opened Arith
  import opened LruList
  import opened TagArray
  import opened CacheLatency

  /* ---- The arrays, cut into sets ---- */

  function Slot(s: nat, w: nat, ways: nat): nat { s * ways + w }

  lemma SlotFits(n: nat, ways: nat, s: nat)
    requires s < n
    ensures Slot(s, ways, ways) <= n * ways && Slot(s, 0, ways) + ways == Slot(s, ways, ways)
    ensures forall w: nat {:trigger Slot(s, w, ways)} :: Slot(s, w, ways) == Slot(s, 0, ways) + w
  {
    MulStep(s, n, ways);
  }

  ghost function Row<T>(a: seq<T>, s: nat, ways: nat): (r: seq<T>)
    requires Slot(s, ways, ways) <= |a|
    ensures |r| == ways && forall w: nat :: w < ways ==> r[w] == a[Slot(s, w, ways)]
  {
    a[s * ways..s * ways + ways]
  }

  /** Writing one slot changes one row in one place. */
  lemma RowUpdate<T>(a: seq<T>, n: nat, ways: nat, s: nat, w: nat, v: T, t: nat)
    requires |a| == n * ways && s < n && t < n && w < ways
    ensures Slot(s, w, ways) < |a| && Slot(s, ways, ways) <= |a| && Slot(t, ways, ways) <= |a|
    ensures Row(a[Slot(s, w, ways) := v], t, ways) == if s == t then Row(a, t, ways)[w := v] else Row(a, t, ways)
  {
    MulStep(s, n, ways);
    MulStep(t, n, ways);
    if s < t { MulStep(s, t, ways); } else if t < s { MulStep(t, s, ways); }
  }

  /** A slot belongs to one row. */
  lemma SlotOf(i: nat, n: nat, ways: nat) returns (s: nat, w: nat)
    requires i < n * ways
    ensures s < n && w < ways && i == Slot(s, w, ways)
  {
    s, w := i / ways, i % ways;
    DivNonNegative(i, ways);
    if s >= n { MulMono(n, s, ways); }
  }

  /** Tags, stamps and the ghost order of every set fit together; each line is in its own set. */
  ghost predicate Tracks(n: nat, ways: nat, tags: seq<nat>, lru: seq<nat>, order: seq<seq<nat>>, counter: nat) {
    && n > 0 && ways > 0 && |tags| == |lru| == n * ways && |order| == n
    && forall s: nat :: s < n ==> SetTracks(n, ways, tags, lru, order, counter, s)
  }

  ghost predicate SetTracks(n: nat, ways: nat, tags: seq<nat>, lru: seq<nat>, order: seq<seq<nat>>, counter: nat,
                            s: nat)
    requires n > 0 && |tags| == |lru| == n * ways && |order| == n && s < n
  {
    SlotFits(n, ways, s);
    Stands(Row(tags, s, ways), Row(lru, s, ways), order[s], counter) && AtHome(Row(tags, s, ways), n, s)
  }

  /** The lines of a row belong in set s of n. */
  ghost predicate AtHome(row: seq<nat>, n: nat, s: nat)
    requires n > 0
  {
    forall w :: 0 <= w < |row| && row[w] != INVALID ==> SetOf(row[w], n) == s
  }

  /** The recency lists of all sets. */
  ghost function ListsOf(n: nat, ways: nat, tags: seq<nat>, order: seq<seq<nat>>): (r: seq<seq<nat>>)
    requires |tags| == n * ways && |order| == n
    ensures |r| == n
  {
    seq(n, s requires 0 <= s < n => (SlotFits(n, ways, s); ListOf(Row(tags, s, ways), order[s])))
  }

  lemma StandsLater(tags: seq<nat>, lru: seq<nat>, order: seq<nat>, counter: nat)
    requires Stands(tags, lru, order, counter)
    ensures Stands(tags, lru, order, counter + 1)
  {
  }

  /** A line is found in its own set's row, or in no list. */
  lemma RowHolds(n: nat, ways: nat, tags: seq<nat>, lru: seq<nat>, order: seq<seq<nat>>, counter: nat, line: nat)
    requires Tracks(n, ways, tags, lru, order, counter) && line != INVALID
    ensures Slot(SetOf(line, n), ways, ways) <= |tags|
    ensures Resident(ListsOf(n, ways, tags, order), line) <==> line in Row(tags, SetOf(line, n), ways)
  {
    var s := SetOf(line, n);
    SlotFits(n, ways, s);
    assert SetTracks(n, ways, tags, lru, order, counter, s);
    ListFacts(Row(tags, s, ways), Row(lru, s, ways), order[s], counter);
  }

  /** The lists are well kept. */
  lemma ListsWellKept(n: nat, ways: nat, tags: seq<nat>, lru: seq<nat>, order: seq<seq<nat>>, counter: nat)
    requires Tracks(n, ways, tags, lru, order, counter)
    ensures WellKept(ListsOf(n, ways, tags, order), ways)
  {
    var l := ListsOf(n, ways, tags, order);
    forall s: nat | s < n ensures Unique(l[s]) && |l[s]| <= ways && forall line :: line in l[s] ==>
      SetOf(line, n) == s {
      SlotFits(n, ways, s);
      assert SetTracks(n, ways, tags, lru, order, counter, s);
      var row := Row(tags, s, ways);
      ListFacts(row, Row(lru, s, ways), order[s], counter);
      Room(row, Row(lru, s, ways), order[s], counter);
      forall line | line in l[s] ensures SetOf(line, n) == s {
        var w: nat :| w < ways && row[w] == line;
      }
    }
  }

  /** A hit in way w of set s. */
  lemma HitTracks(n: nat, ways: nat, tags: seq<nat>, lru: seq<nat>, order: seq<seq<nat>>, counter: nat, line: nat,
                  w: nat, allocate: bool)
    requires Tracks(n, ways, tags, lru, order, counter) && line != INVALID && w < ways
    requires Slot(SetOf(line, n), ways, ways) <= |tags| && Row(tags, SetOf(line, n), ways)[w] == line
    ensures Slot(SetOf(line, n), w, ways) < |lru|
    ensures var s := SetOf(line, n); var order' := order[s := Moved(order[s], w)];
            && Tracks(n, ways, tags, lru[Slot(s, w, ways) := counter + 1], order', counter + 1)
            && ListsOf(n, ways, tags, order') == TouchLine(ListsOf(n, ways, tags, order), line, allocate, ways)
  {
    var s := SetOf(line, n);
    var order' := order[s := Moved(order[s], w)];
    RowUpdate(lru, n, ways, s, w, counter + 1, s);
    var lru' := lru[Slot(s, w, ways) := counter + 1];
    hide Moved, Touch, Stands, Row, Slot, SetOf;
    var stamp := counter + 1;
    forall t: nat | t < n ensures SetTracks(n, ways, tags, lru', order', stamp, t) {
      assert SetTracks(n, ways, tags, lru, order, counter, t);
      RowUpdate(lru, n, ways, s, w, counter + 1, t);
      if t == s {
        HitStands(Row(tags, s, ways), Row(lru, s, ways), order[s], counter, w);
      } else {
        StandsLater(Row(tags, t, ways), Row(lru, t, ways), order[t], counter);
      }
    }
    assert SetTracks(n, ways, tags, lru, order, counter, s);
    HitTouches(Row(tags, s, ways), Row(lru, s, ways), order[s], counter, w, allocate);
    assert ListsOf(n, ways, tags, order') == TouchLine(ListsOf(n, ways, tags, order), line, allocate, ways);
  }

  /** A miss that gives up way v. */
  lemma MissTracks(n: nat, ways: nat, tags: seq<nat>, lru: seq<nat>, order: seq<seq<nat>>, counter: nat, line: nat,
                   v: nat)
    requires Tracks(n, ways, tags, lru, order, counter) && line != INVALID && v < ways
    requires var s := SetOf(line, n); Slot(s, ways, ways) <= |tags| && line !in Row(tags, s, ways) &&
                                      Oldest(Row(lru, s, ways), v)
    ensures Slot(SetOf(line, n), v, ways) < |lru|
    ensures var s := SetOf(line, n);
            var i, order' := Slot(s, v, ways), order[s := [v] + Kept(Row(tags, s, ways), order[s], v)];
            && Tracks(n, ways, tags[i := line], lru[i := counter + 1], order', counter + 1)
            && ListsOf(n, ways, tags[i := line], order') == TouchLine(ListsOf(n, ways, tags, order), line, true, ways)
  {
    hide SetTracks, Kept, Row, Slot, ListsOf, Touch, Oldest;
    var s := SetOf(line, n);
    RowUpdate(lru, n, ways, s, v, counter + 1, s);
    var order' := order[s := [v] + Kept(Row(tags, s, ways), order[s], v)];
    var lru', tags' := lru[Slot(s, v, ways) := counter + 1], tags[Slot(s, v, ways) := line];
    var stamp := counter + 1;
    forall t: nat | t < n
      ensures SetTracks(n, ways, tags', lru', order', stamp, t)
      ensures ListsOf(n, ways, tags', order')[t] == TouchLine(ListsOf(n, ways, tags, order), line, true, ways)[t]
    {
      assert SetTracks(n, ways, tags, lru, order, counter, t) && SetTracks(n, ways, tags, lru, order, counter, s);
      if t == s {
        MissOwnSet(n, ways, tags, lru, order, counter, line, v);
      } else {
        MissOtherSet(n, ways, tags, lru, order, counter, s, v, line, t, order');
      }
    }
    assert ListsOf(n, ways, tags', order') == TouchLine(ListsOf(n, ways, tags, order), line, true, ways);
  }

  lemma MissOwnSet(n: nat, ways: nat, tags: seq<nat>, lru: seq<nat>, order: seq<seq<nat>>, counter: nat, line: nat,
                   v: nat)
    requires n > 0 && ways > 0 && |tags| == |lru| == n * ways && |order| == n && line != INVALID && v < ways
    requires var s := SetOf(line, n); SetTracks(n, ways, tags, lru, order, counter, s) && Slot(s, ways, ways) <= |tags|
    requires line !in Row(tags, SetOf(line, n), ways) && Oldest(Row(lru, SetOf(line, n), ways), v)
    ensures Slot(SetOf(line, n), v, ways) < |lru|
    ensures var s := SetOf(line, n);
            var i, order' := Slot(s, v, ways), order[s := [v] + Kept(Row(tags, s, ways), order[s], v)];
            && SetTracks(n, ways, tags[i := line], lru[i := counter + 1], order', counter + 1, s)
            && ListsOf(n, ways, tags[i := line], order')[s] == Touch(ListsOf(n, ways, tags, order)[s], line, true, ways)
  {
    hide Kept, Touch, Row, Slot, SetOf, Oldest, ListOf;
    var s := SetOf(line, n);
    RowUpdate(lru, n, ways, s, v, counter + 1, s);
    RowUpdate(tags, n, ways, s, v, line, s);
    MissStands(Row(tags, s, ways), Row(lru, s, ways), order[s], counter, v, line);
    MissTouches(Row(tags, s, ways), Row(lru, s, ways), order[s], counter, v, line);
    var i, row := Slot(s, v, ways), Row(tags, s, ways);
    assert Row(tags[i := line], s, ways) == row[v := line];
    assert Row(lru[i := counter + 1], s, ways) == Row(lru, s, ways)[v := counter + 1];
    assert AtHome(row[v := line], n, s);
  }

  /** Slot v of set s is rewritten: another set t stays as it was. */
  lemma MissOtherSet(n: nat, ways: nat, tags: seq<nat>, lru: seq<nat>, order: seq<seq<nat>>, counter: nat, s: nat,
                     v: nat, line: nat, t: nat, order': seq<seq<nat>>)
    requires n > 0 && |tags| == |lru| == n * ways && |order| == |order'| == n && s < n && t < n && s != t && v < ways
    requires SetTracks(n, ways, tags, lru, order, counter, t) && order'[t] == order[t]
    ensures Slot(s, v, ways) < |lru|
    ensures var i := Slot(s, v, ways);
            && SetTracks(n, ways, tags[i := line], lru[i := counter + 1], order', counter + 1, t)
            && ListsOf(n, ways, tags[i := line], order')[t] == ListsOf(n, ways, tags, order)[t]
  {
    hide Stands, Row, Slot, ListOf, AtHome;
    RowUpdate(lru, n, ways, s, v, counter + 1, t);
    RowUpdate(tags, n, ways, s, v, line, t);
    StandsLater(Row(tags, t, ways), Row(lru, t, ways), order[t], counter);
    var i := Slot(s, v, ways);
    assert Row(tags[i := line], t, ways) == Row(tags, t, ways);
    assert Row(lru[i := counter + 1], t, ways) == Row(lru, t, ways);
  }

  /** No line is held twice. */
  lemma TagsDistinct(n: nat, ways: nat, tags: seq<nat>, lru: seq<nat>, order: seq<seq<nat>>, counter: nat, i: nat,
                     j: nat)
    requires Tracks(n, ways, tags, lru, order, counter) && i < j < |tags| && tags[i] != INVALID
    ensures tags[i] != tags[j]
  {
    var s, w := SlotOf(i, n, ways);
    var t, v := SlotOf(j, n, ways);
    SlotFits(n, ways, s);
    SlotFits(n, ways, t);
    assert SetTracks(n, ways, tags, lru, order, counter, s) && SetTracks(n, ways, tags, lru, order, counter, t);
    assert Row(tags, s, ways)[w] == tags[i] && Row(tags, t, ways)[v] == tags[j];
  }

  /* ---- Dirty lines ---- */

  /** `lines` are the lines whose way is marked dirty. */
  ghost predicate DirtyTracks(tags: seq<nat>, dirty: seq<bool>, lines: set<nat>) {
    && |tags| == |dirty|
    && (forall i :: 0 <= i < |tags| && dirty[i] ==> tags[i] != INVALID && tags[i] in lines)
    && (forall line :: line in lines ==> IsDirty(tags, dirty, line))
  }

  ghost predicate IsDirty(tags: seq<nat>, dirty: seq<bool>, line: nat) {
    exists i :: 0 <= i < |tags| && i < |dirty| && tags[i] == line && dirty[i]
  }

  ghost predicate DistinctTags(tags: seq<nat>)
  {
    forall i, j :: 0 <= i < j < |tags| && tags[i] != INVALID ==> tags[i] != tags[j]
  }

  lemma AllDistinct(n: nat, ways: nat, tags: seq<nat>, lru: seq<nat>, order: seq<seq<nat>>, counter: nat)
    requires Tracks(n, ways, tags, lru, order, counter)
    ensures DistinctTags(tags)
  {
    hide Tracks;
    forall i, j | 0 <= i < j < |tags| && tags[i] != INVALID ensures tags[i] != tags[j] {
      TagsDistinct(n, ways, tags, lru, order, counter, i, j);
    }
  }

  /** Slot i is taken over by another line: its old line is not dirty any more. */
  lemma DirtyEvict(tags: seq<nat>, dirty: seq<bool>, lines: set<nat>, i: nat, line: nat)
    requires DirtyTracks(tags, dirty, lines) && DistinctTags(tags) && i < |tags|
    ensures DirtyTracks(tags[i := line], dirty[i := false], if dirty[i] then lines - {tags[i]} else lines)
  {
    var lines' := if dirty[i] then lines - {tags[i]} else lines;
    var tags', dirty' := tags[i := line], dirty[i := false];
    forall x | x in lines' ensures IsDirty(tags', dirty', x) {
      assert IsDirty(tags, dirty, x);
      var k :| 0 <= k < |tags| && tags[k] == x && dirty[k];
      assert tags'[k] == x && dirty'[k];
    }
  }

  lemma DirtyMark(tags: seq<nat>, dirty: seq<bool>, lines: set<nat>, i: nat)
    requires DirtyTracks(tags, dirty, lines) && DistinctTags(tags) && i < |tags| && tags[i] != INVALID
    ensures DirtyTracks(tags, dirty[i := true], lines + {tags[i]}) && (dirty[i] <==> tags[i] in lines)
  {
    var dirty' := dirty[i := true];
    forall x | x in lines + {tags[i]} ensures IsDirty(tags, dirty', x) {
      if x in lines {
        assert IsDirty(tags, dirty, x);
        var k :| 0 <= k < |tags| && tags[k] == x && dirty[k];
        assert dirty'[k];
      } else {
        assert dirty'[i];
      }
    }
    if tags[i] in lines {
      assert IsDirty(tags, dirty, tags[i]);
    }
  }

  /** Every line that turned dirty was written back, is about to be, or is still dirty: once each time. */
  ghost predicate Balanced(dirtied: multiset<nat>, flushed: multiset<nat>, victims: seq<nat>, lines: set<nat>) {
    dirtied == flushed + multiset(victims) + multiset(lines)
  }

  lemma BalanceEvict(dirtied: multiset<nat>, flushed: multiset<nat>, victims: seq<nat>, lines: set<nat>, line: nat)
    requires Balanced(dirtied, flushed, victims, lines) && line in lines
    ensures Balanced(dirtied, flushed, victims + [line], lines - {line})
  {
    assert multiset(lines) == multiset(lines - {line}) + multiset{line};
    assert multiset(victims + [line]) == multiset(victims) + multiset{line};
  }

  lemma BalanceMark(dirtied: multiset<nat>, flushed: multiset<nat>, victims: seq<nat>, lines: set<nat>, line: nat)
    requires Balanced(dirtied, flushed, victims, lines) && line !in lines
    ensures Balanced(dirtied + multiset{line}, flushed, victims, lines + {line})
  {
    assert multiset(lines + {line}) == multiset(lines) + multiset{line};
  }

  lemma BalanceFlush(dirtied: multiset<nat>, flushed: multiset<nat>, victims: seq<nat>, lines: set<nat>)
    requires Balanced(dirtied, flushed, victims, lines)
    ensures Balanced(dirtied, flushed + multiset(victims), [], lines)
  {
    var none: seq<nat> := [];
    assert multiset(none) == multiset{};
  }

  /** Counting: as many lines turned dirty as were written back or are dirty still. */
  lemma BalanceCounts(dirtied: multiset<nat>, flushed: multiset<nat>, lines: set<nat>)
    requires Balanced(dirtied, flushed, [], lines)
    ensures |dirtied| == |flushed| + |lines|
  {
    var none: seq<nat> := [];
    assert multiset(none) == multiset{};
  }

  /** A dirty line leaves only by going on the list of lines to write back. */
  ghost predicate GivesUp(victims: seq<nat>, lines: set<nat>, victims': seq<nat>, lines': set<nat>) {
    || (victims' == victims && lines' == lines)
    || (|victims'| == |victims| + 1 && victims'[..|victims|] == victims
        && victims'[|victims|] in lines && lines' == lines - {victims'[|victims|]})
  }

  /** Each way that holds a line knows when the line's last refill lands; never before time 0. */
  ghost predicate LandsTrack(tags: seq<nat>, ready: seq<int>, lands: map<nat, int>) {
    && |tags| == |ready| && (forall i :: 0 <= i < |ready| ==> 0 <= ready[i])
    && forall i :: 0 <= i < |tags| && tags[i] != INVALID ==> tags[i] in lands && lands[tags[i]] == ready[i]
  }

  /** A line brought into slot i. */
  lemma LandsInstall(tags: seq<nat>, ready: seq<int>, lands: map<nat, int>, i: nat, line: nat, t: int)
    requires LandsTrack(tags, ready, lands) && i < |tags| && line != INVALID && 0 <= t
    requires DistinctTags(tags[i := line])
    ensures LandsTrack(tags[i := line], ready[i := t], lands[line := t])
  {
    var tags' := tags[i := line];
    forall k | 0 <= k < |tags| && tags'[k] != INVALID && k != i ensures tags'[k] != line {
      assert tags'[i] == line;
    }
  }

  /** The tag array stands for its lists, and for when its lines land. */
  ghost predicate Sound(n: nat, ways: nat, tags: seq<nat>, lru: seq<nat>, order: seq<seq<nat>>, counter: nat,
                        ready: seq<int>, lands: map<nat, int>) {
    Tracks(n, ways, tags, lru, order, counter) && LandsTrack(tags, ready, lands)
  }

  /** Once a line is in slot i, with the next stamp, the arrays stand for its lists and landing times again. */
  lemma SoundAfter(n: nat, ways: nat, tags: seq<nat>, lru: seq<nat>, order: seq<seq<nat>>, counter: nat,
                   ready: seq<int>, lands: map<nat, int>, i: nat, line: nat, t: int)
    requires |tags| == |lru| == |ready| && i < |tags| && line != INVALID && 0 <= t
    requires Tracks(n, ways, tags[i := line], lru[i := counter + 1], order, counter + 1)
    requires LandsTrack(tags, ready, lands)
    ensures Sound(n, ways, tags[i := line], lru[i := counter + 1], order, counter + 1, ready[i := t], lands[line := t])
  {
    hide Tracks, LandsTrack;
    AllDistinct(n, ways, tags[i := line], lru[i := counter + 1], order, counter + 1);
    LandsInstall(tags, ready, lands, i, line, t);
  }

  /** The way of a victim, the least recent one, is given to a line: the arrays stand for the lists after a miss. */
  lemma ReplaceKeeps(n: nat, ways: nat, tags: seq<nat>, lru: seq<nat>, order: seq<seq<nat>>, counter: nat,
                     ready: seq<int>, lands: map<nat, int>, line: nat, v: nat, t: int)
    requires Sound(n, ways, tags, lru, order, counter, ready, lands) && |tags| == |lru| == |ready|
    requires line != INVALID && 0 <= t && v < ways && n > 0 && ways > 0 && |order| == n
    requires var s := SetOf(line, n); Slot(s, ways, ways) <= |tags| && line !in Row(tags, s, ways) &&
                                      Oldest(Row(lru, s, ways), v)
    ensures var s := SetOf(line, n);
            var i, order' := Slot(s, v, ways), order[s := [v] + Kept(Row(tags, s, ways), order[s], v)];
            && i < |tags|
            && Sound(n, ways, tags[i := line], lru[i := counter + 1], order', counter + 1, ready[i := t],
                     lands[line := t])
            && ListsOf(n, ways, tags[i := line], order') == TouchLine(ListsOf(n, ways, tags, order), line, true, ways)
  {
    hide Tracks, LandsTrack, SetOf, Slot, Row, Kept, Oldest, ListsOf, TouchLine;
    MissTracks(n, ways, tags, lru, order, counter, line, v);
    var s := SetOf(line, n);
    var order' := order[s := [v] + Kept(Row(tags, s, ways), order[s], v)];
    SoundAfter(n, ways, tags, lru, order', counter, ready, lands, Slot(s, v, ways), line, t);
  }

  /** The dirty marks, and that every line which turned dirty is accounted for. */
  ghost predicate Accounted(tags: seq<nat>, dirty: seq<bool>, lines: set<nat>, dirtied: multiset<nat>,
                            flushed: multiset<nat>,
                            victims: seq<nat>, nbWriteback: nat, writeback: bool) {
    && DirtyTracks(tags, dirty, lines)
    && Balanced(dirtied, flushed, victims, lines) && |flushed| == nbWriteback
    && (!writeback ==> lines == {} && victims == [])
  }

  /** The effect of an access on the lists and on the counters of hits and misses. */
  ghost predicate Referenced(lists: seq<seq<nat>>, lists': seq<seq<nat>>, ways: nat, first: nat, count: nat,
                             allocate: bool,
                             hits: nat, hits': nat, misses: nat, misses': nat) {
    && |lists| > 0 && ways > 0
    && lists' == TouchRun(lists, first, count, allocate, ways)
    && misses' == misses + Misses(lists, first, count, allocate, ways)
    && hits' == hits + count - Misses(lists, first, count, allocate, ways)
  }

  /** What an access does to the port and to landing times, and the latency it is answered with. */
  ghost predicate Answered(f: Figures, lists: seq<seq<nat>>, ways: nat, a: LruList.Access, writeAllocate: bool,
                           writeback: bool, next: nat, now: int,
                           free: int, free': int, lands: map<nat, int>, lands': map<nat, int>, latency: int) {
    && |lists| > 0 && ways > 0
    && var k := AccessTimed(f, free, lands, lists, ways, a, writeAllocate, writeback, next, now);
       free' == k.free && lands' == k.lands && latency == Max(0, k.ready - now)
  }

  ghost predicate AllDirty(lines: set<nat>, first: nat, count: nat)
  {
    forall line :: first <= line < first + count ==> line in lines
  }

  /* ---- The cache ---- */

  /** What reaches the next level: an access it times, or one it serves without noticing. */
  datatype Down = Down(addr: nat, size: nat, write: bool, timed: bool)

  datatype Status = Ok | Invalid

  ghost function TimedReads(down: seq<Down>): nat {
    if down == [] then 0
    else TimedReads(down[..|down| - 1]) + (if down[|down| - 1].timed && !down[|down| - 1].write then 1 else 0)
  }

  ghost function TimedWrites(down: seq<Down>): nat {
    if down == [] then 0
    else TimedWrites(down[..|down| - 1]) + (if down[|down| - 1].timed && down[|down| - 1].write then 1 else 0)
  }

  /** What writing lines back sends down. */
  ghost function Flushes(lines: seq<nat>, lineSize: nat): seq<Down> {
    if lines == [] then []
    else
      var addr := lines[|lines| - 1] * lineSize;
      Flushes(lines[..|lines| - 1], lineSize) + [Down(addr, lineSize, false, false), Down(addr, lineSize, true, true)]
  }

  lemma {:induction false} FlushesSend(down: seq<Down>, lines: seq<nat>, lineSize: nat)
    ensures TimedReads(down + Flushes(lines, lineSize)) == TimedReads(down)
    ensures TimedWrites(down + Flushes(lines, lineSize)) == TimedWrites(down) + |lines|
  {
    if lines == [] {
      assert down + Flushes(lines, lineSize) == down;
    } else {
      var addr, rest := lines[|lines| - 1] * lineSize, down + Flushes(lines[..|lines| - 1], lineSize);
      var d0, d1 := Down(addr, lineSize, false, false), Down(addr, lineSize, true, true);
      FlushesSend(down, lines[..|lines| - 1], lineSize);
      assert down + Flushes(lines, lineSize) == rest + [d0] + [d1];
      assert (rest + [d0])[..|rest|] == rest && (rest + [d0] + [d1])[..|rest| + 1] == rest + [d0];
    }
  }

  /* ---- What goes down, byte by byte ---- */

  function LineOf(x: nat, lineSize: nat): (line: nat)
    requires lineSize > 0
  {
    DivNonNegative(x, lineSize);
    x / lineSize
  }

  /** An access to exactly the bytes of the lines first, first + 1, ... */
  ghost predicate Spans(d: Down, first: nat, count: nat, lineSize: nat)
    requires lineSize > 0
  {
    forall x: nat :: d.addr <= x < d.addr + d.size <==> first <= LineOf(x, lineSize) < first + count
  }

  lemma WholeLines(first: nat, count: nat, lineSize: nat, write: bool, timed: bool)
    requires lineSize > 0
    ensures 0 <= first * lineSize && 0 <= count * lineSize
    ensures Spans(Down(first * lineSize, count * lineSize, write, timed), first, count, lineSize)
  {
    MulMono(0, first, lineSize);
    MulMono(0, count, lineSize);
    Distribute(first, count, lineSize);
    forall x: nat
      ensures first * lineSize <= x < first * lineSize + count * lineSize <==>
              first <= LineOf(x, lineSize) < first + count
    {
      var l := LineOf(x, lineSize);
      assert x == l * lineSize + x % lineSize;
      if l < first { MulStep(l, first, lineSize); } else { MulMono(first, l, lineSize); }
      if l < first + count { MulStep(l, first + count, lineSize); } else { MulMono(first + count, l, lineSize); }
    }
  }

  /** Each of the lines, in turn, is fetched without the next level noticing and then written as a real access. */
  ghost predicate WroteBack(sent: seq<Down>, lines: seq<nat>, lineSize: nat)
    requires lineSize > 0
  {
    && |sent| == 2 * |lines|
    && forall i: nat :: i < |lines| ==> LineBack(sent[2 * i], sent[2 * i + 1], lines[i], lineSize)
  }

  ghost predicate LineBack(fetch: Down, store: Down, line: nat, lineSize: nat)
    requires lineSize > 0
  {
    && !fetch.write && !fetch.timed && Spans(fetch, line, 1, lineSize)
    && store.write && store.timed && store.size == lineSize && Spans(store, line, 1, lineSize)
  }

  lemma {:induction false} FlushesWriteBack(lines: seq<nat>, lineSize: nat)
    requires lineSize > 0
    ensures WroteBack(Flushes(lines, lineSize), lines, lineSize)
  {
    if lines != [] {
      var n := |lines| - 1;
      FlushesWriteBack(lines[..n], lineSize);
      WholeLines(lines[n], 1, lineSize, false, false);
      WholeLines(lines[n], 1, lineSize, true, true);
      assert 1 * lineSize == lineSize;
      var before, after := Flushes(lines[..n], lineSize), Flushes(lines, lineSize);
      hide Spans;
      forall i: nat | i < |lines| ensures LineBack(after[2 * i], after[2 * i + 1], lines[i], lineSize) {
        if i < n { assert after[2 * i] == before[2 * i] && after[2 * i + 1] == before[2 * i + 1]; }
      }
    }
  }

  /**
    What a write-back request sends down: itself, timed if it is a read that misses; for a write that
    misses a timed read of its lines; then the dirty lines given up, each written back to its place.
   */
  ghost predicate SentDown(was: seq<Down>, now: seq<Down>, addr: nat, size: nat, write: bool, resident: bool,
                           first: nat, count: nat, gone: seq<nat>, lineSize: nat)
    requires lineSize > 0
  {
    && was <= now
    && var sent, own := now[|was|..], if write && !resident then 2 else 1;
       && own <= |sent| && sent[0] == Down(addr, size, write, !resident && !write)
       && (own == 2 ==> !sent[1].write && sent[1].timed && Spans(sent[1], first, count, lineSize))
       && WroteBack(sent[own..], gone, lineSize)
  }

  lemma SentThenGone(was: seq<Down>, mid: seq<Down>, now: seq<Down>, addr: nat, size: nat, write: bool, resident: bool,
                     first: nat, count: nat, gone: seq<nat>, lineSize: nat)
    requires lineSize > 0 && SentDown(was, mid, addr, size, write, resident, first, count, [], lineSize)
    requires mid <= now && WroteBack(now[|mid|..], gone, lineSize)
    ensures SentDown(was, now, addr, size, write, resident, first, count, gone, lineSize)
  {
    hide Spans, LineBack;
    var own := if write && !resident then 2 else 1;
    assert |mid| == |was| + own;
    assert now[|was|..][own..] == now[|mid|..];
    assert now[|was|..][..own] == mid[|was|..];
  }

  class Cache {
    const nbSets: nat
    const nbWays: nat
    const lineSize: nat
    const hitLatency: nat
    const missLatency: nat
    const refillCycles: nat
    const writeCycles: nat
    const storeBufferCycles: nat
    const writeAllocate: bool
    const writeback: bool

    const tags: array<nat>
    const lru: array<nat>
    const lineReady: array<int>
    const dirty: array<bool>

    var lruCounter: nat
    var nextLevelFree: int
    var victims: seq<nat>
    var nbRead: nat
    var nbWrite: nat
    var nbHit: nat
    var nbMiss: nat
    var nbWriteback: nat

    ghost var order: seq<seq<nat>>
    ghost var dirtyLines: set<nat>
    ghost var dirtied: multiset<nat>
    ghost var flushed: multiset<nat>
    ghost var down: seq<Down>
    ghost var history: seq<Access>
    ghost var lands: map<nat, int>

    /** After reset: nothing resident, nothing counted. */
    constructor (nbSets: nat, nbWays: nat, lineSize: nat, hitLatency: nat, missLatency: nat, refillCycles: nat,
                 writeCycles: nat, storeBufferSize: nat, writeAllocate: bool, writeback: bool)
      requires nbSets > 0 && nbWays > 0 && lineSize > 0 && (writeback ==> writeAllocate)
      ensures Valid() && Replayed() && this.nbSets == nbSets && this.nbWays == nbWays &&
              this.writeAllocate == writeAllocate
      ensures victims == [] && history == [] && nextLevelFree == 0 && lands == map[]
      ensures Figs() == Figures(hitLatency, missLatency, refillCycles, writeCycles, storeBufferSize * writeCycles)
      ensures fresh(tags) && fresh(lru) && fresh(lineReady) && fresh(dirty)
    {
      this.nbSets, this.nbWays, this.lineSize := nbSets, nbWays, lineSize;
      this.hitLatency, this.missLatency, this.refillCycles := hitLatency, missLatency, refillCycles;
      this.writeCycles, this.storeBufferCycles := writeCycles, storeBufferSize * writeCycles;
      this.writeAllocate, this.writeback := writeAllocate, writeback;
      tags := new nat[nbSets * nbWays](_ => INVALID);
      lru := new nat[nbSets * nbWays](_ => 0);
      lineReady := new int[nbSets * nbWays](_ => 0);
      dirty := new bool[nbSets * nbWays](_ => false);
      lruCounter, nextLevelFree, victims := 0, 0, [];
      nbRead, nbWrite, nbHit, nbMiss, nbWriteback := 0, 0, 0, 0, 0;
      order := Empty(nbSets);
      dirtyLines, dirtied, flushed, down, history, lands := {}, multiset{}, multiset{}, [], [], map[];
      new;
      EmptyTracks(nbSets, nbWays, tags[..], lru[..]);
      EmptyAccounts(tags[..], dirty[..]);
    }

    /** The lists, and the count of misses, are those of the whole run of accesses. */
    ghost predicate Replayed()
      requires Sized()
      reads this, tags
    {
      && Lists() == Replay(Empty(nbSets), history, writeAllocate, nbWays)
      && nbMiss == TraceMisses(Empty(nbSets), history, writeAllocate, nbWays)
    }

    ghost predicate Sized()
      reads this
    {
      && nbSets > 0 && nbWays > 0 && lineSize > 0
      && tags.Length == lru.Length == lineReady.Length == dirty.Length == nbSets * nbWays && tags != lru
      && |order| == nbSets && (writeback ==> writeAllocate)
    }

    ghost predicate Valid()
      reads this, tags, lru, lineReady, dirty
    {
      && Sized()
      && Sound(nbSets, nbWays, tags[..], lru[..], order, lruCounter, lineReady[..], lands)
      && Accounted(tags[..], dirty[..], dirtyLines, dirtied, flushed, victims, nbWriteback, writeback)
    }

    function Figs(): Figures { Figures(hitLatency, missLatency, refillCycles, writeCycles, storeBufferCycles) }

    /** The recency lists the arrays stand for. */
    ghost function Lists(): seq<seq<nat>>
      requires Sized()
      reads this, tags
    {
      ListsOf(nbSets, nbWays, tags[..], order)
    }

    ghost predicate Holds(line: nat)
      requires Sized()
      reads this, tags
    {
      Resident(Lists(), line)
    }

    /** Lines of the access [addr, addr + size): none may be the tag that means "nothing". */
    function FirstLine(addr: nat): nat
      requires lineSize > 0
    {
      DivNonNegative(addr, lineSize);
      addr / lineSize
    }

    function LineCount(addr: nat, size: nat): nat
      requires lineSize > 0
    {
      LastNotBefore(addr, size, lineSize);
      FirstLine(addr + Max(size, 1) - 1) - FirstLine(addr) + 1
    }

    /** Those are the lines that hold some byte of the access, one byte at least. */
    lemma TouchedLines(addr: nat, size: nat, line: nat)
      requires lineSize > 0
      ensures FirstLine(addr) <= line < FirstLine(addr) + LineCount(addr, size) <==>
              exists x: nat :: addr <= x < addr + Max(size, 1) && LineOf(x, lineSize) == line
    {
      hide LineOf;
      var last := addr + Max(size, 1) - 1;
      LinesEnds(addr, size);
      if FirstLine(addr) <= line < FirstLine(addr) + LineCount(addr, size) {
        InLine(line, lineSize, addr, last);
      }
      if x: nat :| addr <= x < addr + Max(size, 1) && LineOf(x, lineSize) == line {
        LineOfMono(addr, x, lineSize);
        LineOfMono(x, last, lineSize);
      }
    }

    lemma LinesEnds(addr: nat, size: nat)
      requires lineSize > 0
      ensures FirstLine(addr) == LineOf(addr, lineSize)
      ensures FirstLine(addr) + LineCount(addr, size) - 1 == LineOf(addr + Max(size, 1) - 1, lineSize)
    {
    }

    ghost predicate Addressable(addr: nat, size: nat)
      requires lineSize > 0
    {
      FirstLine(addr) + LineCount(addr, size) <= INVALID
    }

    /** The way of a line's set that holds it, if one does. */
    method FindWay(line: nat) returns (found: bool, way: nat)
      requires Valid() && line != INVALID
      ensures Slot(SetOf(line, nbSets), nbWays, nbWays) <= tags.Length
      ensures found == Holds(line)
      ensures found ==> way < nbWays && Row(tags[..], SetOf(line, nbSets), nbWays)[way] == line
      ensures !found ==> line !in Row(tags[..], SetOf(line, nbSets), nbWays)
    {
      RowHolds(nbSets, nbWays, tags[..], lru[..], order, lruCounter, line);
      var s := SetOf(line, nbSets);
      SlotFits(nbSets, nbWays, s);
      hide Tracks, Slot, Balanced, DirtyTracks, Resident;
      found, way := false, 0;
      while way < nbWays
        invariant way <= nbWays
        invariant forall w: nat :: w < way ==> Row(tags[..], s, nbWays)[w] != line
      {
        assert Row(tags[..], s, nbWays)[way] == tags[Slot(s, way, nbWays)];
        if tags[Slot(s, way, nbWays)] == line { return true, way; }
        way := way + 1;
      }
    }

    /** The way with the lowest stamp, the first of them. */
    method FindVictim(s: nat) returns (victim: nat)
      requires Sized() && s < nbSets
      ensures Slot(s, nbWays, nbWays) <= lru.Length && victim < nbWays && Oldest(Row(lru[..], s, nbWays), victim)
    {
      SlotFits(nbSets, nbWays, s);
      hide Slot;
      victim := 0;
      var way := 1;
      while way < nbWays
        invariant 1 <= way <= nbWays && victim < way
        invariant forall w: nat :: w < way ==> Row(lru[..], s, nbWays)[victim] <= Row(lru[..], s, nbWays)[w]
      {
        assert Row(lru[..], s, nbWays)[way] == lru[Slot(s, way, nbWays)];
        assert Row(lru[..], s, nbWays)[victim] == lru[Slot(s, victim, nbWays)];
        if lru[Slot(s, way, nbWays)] < lru[Slot(s, victim, nbWays)] { victim := way; }
        way := way + 1;
      }
    }

    /**
      One reference. The lists move as the recency list of the line's set does; the result is
      negative exactly when the line was missing, else when its last refill lands. A line brought in
      lands at `readyTime`; a dirty line that goes is put on the victim list.
     */
    method Lookup(line: nat, allocate: bool, readyTime: int) returns (ready: int)
      requires Valid() && line != INVALID && 0 <= readyTime && (writeback ==> allocate)
      modifies this`lruCounter, this`victims, this`order, this`dirtyLines, this`lands, tags, lru, lineReady, dirty
      ensures Valid()
      ensures Lists() == TouchLine(old(Lists()), line, allocate, nbWays)
      ensures ready >= 0 <==> old(Holds(line))
      ensures old(Holds(line)) ==> ready == Landing(old(lands), line)
      ensures lands == if allocate && !old(Holds(line)) then old(lands)[line := readyTime] else old(lands)
      ensures GivesUp(old(victims), old(dirtyLines), victims, dirtyLines)
    {
      var found, way := FindWay(line);
      if found {
        ready := Hit(line, way, allocate);
      } else {
        ready := -1;
        if allocate {
          var victim := FindVictim(SetOf(line, nbSets));
          Replace(line, victim, readyTime);
        } else {
          NoTouch(line);
        }
      }
    }

    /** A line that is not brought in leaves the lists alone. */
    lemma NoTouch(line: nat)
      requires Sized() && !Holds(line)
      ensures Lists() == TouchLine(Lists(), line, false, nbWays)
    {
    }

    method Hit(line: nat, way: nat, allocate: bool) returns (ready: int)
      requires Valid() && line != INVALID && Slot(SetOf(line, nbSets), nbWays, nbWays) <= tags.Length
      requires way < nbWays && Row(tags[..], SetOf(line, nbSets), nbWays)[way] == line
      modifies this`lruCounter, this`order, lru
      ensures Valid() && 0 <= ready == Landing(lands, line)
      ensures Lists() == TouchLine(old(Lists()), line, allocate, nbWays)
    {
      var s := SetOf(line, nbSets);
      HitTracks(nbSets, nbWays, tags[..], lru[..], order, lruCounter, line, way, allocate);
      assert tags[Slot(s, way, nbWays)] == line;
      hide Tracks, Slot, Balanced, DirtyTracks, ListsOf, TouchLine, Moved;
      ghost var lru0 := lru[..];
      lruCounter := lruCounter + 1;
      lru[Slot(s, way, nbWays)] := lruCounter;
      order := order[s := Moved(order[s], way)];
      assert lru[..] == lru0[Slot(s, way, nbWays) := lruCounter];
      ready := lineReady[Slot(s, way, nbWays)];
    }

    /** The victim's way is given to the line; a dirty victim is put on the list of lines to write back. */
    method Replace(line: nat, victim: nat, readyTime: int)
      requires Valid() && line != INVALID && 0 <= readyTime && victim < nbWays
      requires Slot(SetOf(line, nbSets), nbWays, nbWays) <= tags.Length
      requires line !in Row(tags[..], SetOf(line, nbSets), nbWays) &&
               Oldest(Row(lru[..], SetOf(line, nbSets), nbWays), victim)
      modifies this`lruCounter, this`victims, this`order, this`dirtyLines, this`lands, tags, lru, lineReady, dirty
      ensures Valid() && lands == old(lands)[line := readyTime]
      ensures Lists() == TouchLine(old(Lists()), line, true, nbWays)
      ensures GivesUp(old(victims), old(dirtyLines), victims, dirtyLines)
    {
      hide Sound, Accounted, SetOf, Slot, ListsOf, TouchLine, Kept, Oldest, GivesUp, Row;
      var s := SetOf(line, nbSets);
      ReplaceKeeps(nbSets, nbWays, tags[..], lru[..], order, lruCounter, lineReady[..], lands, line, victim, readyTime);
      var i := Slot(s, victim, nbWays);
      ghost var order' := order[s := [victim] + Kept(Row(tags[..], s, nbWays), order[s], victim)];
      DropDirty(i, line);
      Install(i, line, readyTime, order');
    }

    /** Slot i is given to the line, with the next stamp. */
    method Install(i: nat, line: nat, readyTime: int, ghost order': seq<seq<nat>>)
      requires Sized() && i < tags.Length && |order'| == nbSets
      requires Sound(nbSets, nbWays, tags[..][i := line], lru[..][i := lruCounter + 1], order', lruCounter + 1,
                     lineReady[..][i := readyTime], lands[line := readyTime])
      requires Accounted(tags[..][i := line], dirty[..], dirtyLines, dirtied, flushed, victims, nbWriteback, writeback)
      modifies this`lruCounter, this`order, this`lands, tags, lru, lineReady
      ensures Valid() && order == order' && tags[..] == old(tags[..])[i := line]
      ensures lands == old(lands)[line := readyTime]
    {
      hide Sound, Accounted;
      ghost var tags0, lru0, ready0 := tags[..], lru[..], lineReady[..];
      order := order';
      tags[i] := line;
      lruCounter := lruCounter + 1;
      lru[i] := lruCounter;
      lineReady[i] := readyTime;
      lands := lands[line := readyTime];
      assert tags[..] == tags0[i := line] && lru[..] == lru0[i := lruCounter];
      assert lineReady[..] == ready0[i := readyTime];
    }

    /** Slot i is about to hold `line`: a dirty line in it goes on the list of lines to write back. */
    method DropDirty(i: nat, ghost line: nat)
      requires Valid() && i < tags.Length
      modifies this`victims, this`dirtyLines, dirty
      ensures Accounted(tags[..][i := line], dirty[..], dirtyLines, dirtied, flushed, victims, nbWriteback, writeback)
      ensures GivesUp(old(victims), old(dirtyLines), victims, dirtyLines)
    {
      ghost var dirty0 := dirty[..];
      AllDistinct(nbSets, nbWays, tags[..], lru[..], order, lruCounter);
      DirtyEvict(tags[..], dirty0, dirtyLines, i, line);
      assert dirty0[i] ==> tags[i] != INVALID && tags[i] in dirtyLines;
      if dirty0[i] { BalanceEvict(dirtied, flushed, victims, dirtyLines, tags[i]); }
      hide Tracks, Balanced, DirtyTracks, DistinctTags;
      if writeback {
        if tags[i] != INVALID && dirty[i] {
          victims := victims + [tags[i]];
          dirtyLines := dirtyLines - {tags[i]};
        }
        dirty[i] := false;
      }
      assert dirty[..] == dirty0[i := false];
    }

    /** Marks the line's way dirty, if it has one. */
    method MarkDirty(line: nat)
      requires Valid() && line != INVALID && writeback
      modifies this`dirtyLines, this`dirtied, dirty
      ensures Valid() && Lists() == old(Lists())
      ensures dirtyLines == if Holds(line) then old(dirtyLines) + {line} else old(dirtyLines)
      ensures dirtied == if Holds(line) && line !in old(dirtyLines) then old(dirtied) + multiset{line} else old(dirtied)
    {
      var found, way := FindWay(line);
      if found {
        SlotFits(nbSets, nbWays, SetOf(line, nbSets));
        hide Tracks, Slot, Balanced, DirtyTracks, ListsOf;
        SetDirty(line, Slot(SetOf(line, nbSets), way, nbWays));
      }
    }

    method SetDirty(line: nat, i: nat)
      requires Valid() && line != INVALID && writeback && i < tags.Length && tags[i] == line
      modifies this`dirtyLines, this`dirtied, dirty
      ensures Valid() && Lists() == old(Lists())
      ensures dirtyLines == old(dirtyLines) + {line}
      ensures dirtied == if line !in old(dirtyLines) then old(dirtied) + multiset{line} else old(dirtied)
    {
      ghost var dirty0 := dirty[..];
      AllDistinct(nbSets, nbWays, tags[..], lru[..], order, lruCounter);
      DirtyMark(tags[..], dirty0, dirtyLines, i);
      if line !in dirtyLines { BalanceMark(dirtied, flushed, victims, dirtyLines, line); }
      hide Tracks, Balanced, DirtyTracks, ListsOf, DistinctTags;
      if line !in dirtyLines { dirtied := dirtied + multiset{line}; }
      assert line in dirtyLines ==> dirtyLines + {line} == dirtyLines;
      dirtyLines := dirtyLines + {line};
      dirty[i] := true;
      assert dirty[..] == dirty0[i := true];
    }

    /** One line of an access: the lookup, the counters, and the port to the next level if the line is brought in. */
    method TouchOne(line: nat, allocate: bool, now: int, nextLatency: nat, ready: int) returns (ready': int)
      requires Valid() && line != INVALID && 0 <= now && (writeback ==> allocate)
      modifies this`lruCounter, this`victims, this`order, this`dirtyLines, this`lands, this`nextLevelFree, this`nbHit,
               this`nbMiss, tags, lru, lineReady, dirty
      ensures Valid()
      ensures Lists() == TouchLine(old(Lists()), line, allocate, nbWays)
      ensures nbMiss == old(nbMiss) + (if old(Holds(line)) then 0 else 1) &&
              nbHit + nbMiss == old(nbHit) + old(nbMiss) + 1
      ensures Clock(nextLevelFree, lands, ready') ==
              LineTimed(Figs(), old(Clock(nextLevelFree, lands, ready)), line, old(Holds(line)), allocate, nextLatency,
                        now)
      ensures GivesUp(old(victims), old(dirtyLines), victims, dirtyLines)
    {
      hide Sound, Accounted, Tracks, Balanced, DirtyTracks, ListsOf, TouchLine, GivesUp, Resident;
      var start := Max(now, nextLevelFree);
      var refillDone := start + nextLatency + missLatency + refillCycles;
      var lineReady := Lookup(line, allocate, refillDone);
      ready' := ready;
      if lineReady >= 0 {
        nbHit := nbHit + 1;
        ready' := Max(ready', lineReady);
        return;
      }
      nbMiss := nbMiss + 1;
      if !allocate { return; }
      nextLevelFree := start + refillCycles;
      ready' := Max(ready', refillDone);
    }

    /** The loop over the lines of an access. */
    method TouchLines(first: nat, count: nat, allocate: bool, now: int, nextLatency: nat, start: int)
      returns (ready: int)
      requires Valid() && first + count <= INVALID && 0 <= now && (writeback ==> allocate)
      modifies this`lruCounter, this`victims, this`order, this`dirtyLines, this`lands, this`nextLevelFree, this`nbHit,
               this`nbMiss, tags, lru, lineReady, dirty
      ensures Valid()
      ensures Referenced(old(Lists()), Lists(), nbWays, first, count, allocate, old(nbHit), nbHit, old(nbMiss), nbMiss)
      ensures Clock(nextLevelFree, lands, ready) ==
              RunTimed(Figs(), old(Clock(nextLevelFree, lands, start)), old(Lists()), nbWays, first, count, allocate,
                       nextLatency, now)
      ensures old(victims) <= victims && dirtyLines <= old(dirtyLines)
    {
      hide Sound, Accounted, Tracks, Balanced, DirtyTracks, ListsOf, TouchLine, TouchRun, Misses, Resident, LineTimed;
      ghost var lists, k0 := Lists(), Clock(nextLevelFree, lands, start);
      RunStart(lists, first, allocate, nbWays);
      ready := start;
      var k := 0;
      while k < count
        invariant k <= count && Valid()
        invariant Clock(nextLevelFree, lands, ready) ==
                  RunTimed(Figs(), k0, lists, nbWays, first, k, allocate, nextLatency, now)
        invariant Lists() == TouchRun(lists, first, k, allocate, nbWays)
        invariant var m := Misses(lists, first, k, allocate, nbWays);
                  nbMiss == old(nbMiss) + m && nbHit == old(nbHit) + k - m
        invariant old(victims) <= victims && dirtyLines <= old(dirtyLines)
      {
        RunStep(lists, first, k + 1, allocate, nbWays);
        ready := TouchOne(first + k, allocate, now, nextLatency, ready);
        k := k + 1;
      }
    }

    /** Marks every line of a write dirty. */
    method MarkLines(first: nat, count: nat)
      requires Valid() && writeback && first + count <= INVALID
      modifies this`dirtyLines, this`dirtied, dirty
      ensures Valid() && Lists() == old(Lists()) && old(dirtyLines) <= dirtyLines
      ensures forall line :: first <= line < first + count ==>
                (line in dirtyLines <==> Holds(line) || line in old(dirtyLines))
      ensures forall line :: !(first <= line < first + count) ==> (line in dirtyLines <==> line in old(dirtyLines))
    {
      hide Sound, Accounted, Tracks, Balanced, DirtyTracks, ListsOf, Resident;
      var k := 0;
      while k < count
        invariant k <= count && Valid() && Lists() == old(Lists()) && old(dirtyLines) <= dirtyLines
        invariant forall line :: first <= line < first + k ==>
                    (line in dirtyLines <==> Holds(line) || line in old(dirtyLines))
        invariant forall line :: !(first <= line < first + k) ==> (line in dirtyLines <==> line in old(dirtyLines))
      {
        MarkDirty(first + k);
        k := k + 1;
      }
    }

    /** Is every line of the access resident? Changes nothing. */
    method Probe(addr: nat, size: nat) returns (resident: bool)
      requires Valid() && Addressable(addr, size)
      ensures resident == AllResident(Lists(), FirstLine(addr), LineCount(addr, size))
    {
      hide Tracks, Balanced, DirtyTracks, ListsOf, Resident;
      var first, count := FirstLine(addr), LineCount(addr, size);
      var k := 0;
      while k < count
        invariant k <= count && AllResident(Lists(), first, k)
      {
        var found, way := FindWay(first + k);
        if !found { return false; }
        k := k + 1;
      }
      return true;
    }

    /**
      An access: what the master sees of it, and what it leaves. A write in write-back mode leaves
      all the lines it touched dirty if and only if they are no more than the cache has.
     */
    method Access(addr: nat, size: nat, write: bool, nextLatency: nat, now: int) returns (latency: int)
      requires Valid() && Addressable(addr, size) && 0 <= now
      modifies this`lruCounter, this`victims, this`order, this`dirtyLines, this`dirtied, this`lands, this`nextLevelFree,
               this`nbRead, this`nbWrite, this`nbHit, this`nbMiss, this`history, tags, lru, lineReady, dirty
      ensures Valid()
      ensures Answered(Figs(), old(Lists()), nbWays, LruList.Access(FirstLine(addr), LineCount(addr, size), write),
                       writeAllocate, writeback, nextLatency, now,
                       old(nextLevelFree), nextLevelFree, old(lands), lands, latency)
      ensures history == old(history) + [LruList.Access(FirstLine(addr), LineCount(addr, size), write)]
      ensures old(Replayed()) ==> Replayed()
      ensures nbRead == old(nbRead) + (if write then 0 else 1) && nbWrite == old(nbWrite) + (if write then 1 else 0)
      ensures Referenced(old(Lists()), Lists(), nbWays, FirstLine(addr), LineCount(addr, size), !write || writeAllocate,
                         old(nbHit), nbHit, old(nbMiss), nbMiss)
      ensures write && writeback ==>
                (AllDirty(dirtyLines, FirstLine(addr), LineCount(addr, size)) <==>
                 LineCount(addr, size) <= nbWays * nbSets)
      ensures !(write && writeback) ==> dirtyLines <= old(dirtyLines) && dirtied == old(dirtied)
      ensures old(victims) <= victims
    {
      ghost var lists, hits, misses := Lists(), nbHit, nbMiss;
      ghost var run := Replay(Empty(nbSets), history, writeAllocate, nbWays);
      assert Replayed() ==> lists == run && misses == TraceMisses(Empty(nbSets), history, writeAllocate, nbWays);
      hide *;
      latency := Perform(addr, size, write, nextLatency, now);
      Record(lists, FirstLine(addr), LineCount(addr, size), write, hits, misses);
    }

    method Perform(addr: nat, size: nat, write: bool, nextLatency: nat, now: int) returns (latency: int)
      requires Valid() && Addressable(addr, size) && 0 <= now
      modifies this`lruCounter, this`victims, this`order, this`dirtyLines, this`dirtied, this`lands, this`nextLevelFree,
               this`nbRead, this`nbWrite, this`nbHit, this`nbMiss, tags, lru, lineReady, dirty
      ensures Valid()
      ensures Answered(Figs(), old(Lists()), nbWays, LruList.Access(FirstLine(addr), LineCount(addr, size), write),
                       writeAllocate, writeback, nextLatency, now,
                       old(nextLevelFree), nextLevelFree, old(lands), lands, latency)
      ensures nbRead == old(nbRead) + (if write then 0 else 1) && nbWrite == old(nbWrite) + (if write then 1 else 0)
      ensures Referenced(old(Lists()), Lists(), nbWays, FirstLine(addr), LineCount(addr, size), !write || writeAllocate,
                         old(nbHit), nbHit, old(nbMiss), nbMiss)
      ensures write && writeback ==>
                (AllDirty(dirtyLines, FirstLine(addr), LineCount(addr, size)) <==>
                 LineCount(addr, size) <= nbWays * nbSets)
      ensures !(write && writeback) ==> dirtyLines <= old(dirtyLines) && dirtied == old(dirtied)
      ensures old(victims) <= victims
    {
      hide Sound, Accounted, ListsOf, Referenced, Answered, AllDirty, Cache.FirstLine, Cache.LineCount;
      CountAccess(write);
      latency := Work(FirstLine(addr), LineCount(addr, size), write, nextLatency, now);
    }

    /** The lines of an access, all but the count of accesses. */
    method Work(first: nat, count: nat, write: bool, nextLatency: nat, now: int) returns (latency: int)
      requires Valid() && first + count <= INVALID && 0 <= now
      modifies this`lruCounter, this`victims, this`order, this`dirtyLines, this`dirtied, this`lands, this`nextLevelFree,
               this`nbHit, this`nbMiss, tags, lru, lineReady, dirty
      ensures Valid()
      ensures Answered(Figs(), old(Lists()), nbWays, LruList.Access(first, count, write), writeAllocate, writeback,
                       nextLatency, now, old(nextLevelFree), nextLevelFree, old(lands), lands, latency)
      ensures Referenced(old(Lists()), Lists(), nbWays, first, count, !write || writeAllocate,
                         old(nbHit), nbHit, old(nbMiss), nbMiss)
      ensures write && writeback ==> (AllDirty(dirtyLines, first, count) <==> count <= nbWays * nbSets)
      ensures !(write && writeback) ==> dirtyLines <= old(dirtyLines) && dirtied == old(dirtied)
      ensures old(victims) <= victims
    {
      ghost var lists, free, lands0 := Lists(), nextLevelFree, lands;
      hide *;
      var ready := Lookups(first, count, write, nextLatency, now);
      ghost var k := Clock(nextLevelFree, lands, ready);
      if write { ready := Settle(first, count, now, ready, lists); }
      latency := if ready > now then ready - now else 0;
      AnswerIs(Figs(), lists, nbWays, LruList.Access(first, count, write), writeAllocate, writeback, nextLatency, now,
               free, lands0, k, Clock(nextLevelFree, lands, ready));
    }

    ghost method Record(lists: seq<seq<nat>>, first: nat, count: nat, write: bool, hits: nat, misses: nat)
      requires Valid() && |lists| == nbSets
      requires Referenced(lists, Lists(), nbWays, first, count, !write || writeAllocate, hits, nbHit, misses, nbMiss)
      modifies this`history
      ensures Valid() && Lists() == old(Lists()) && history == old(history) + [LruList.Access(first, count, write)]
      ensures (lists == Replay(Empty(nbSets), old(history), writeAllocate, nbWays)
               && misses == TraceMisses(Empty(nbSets), old(history), writeAllocate, nbWays)) ==> Replayed()
    {
      var longer := history + [LruList.Access(first, count, write)];
      assert longer[..|history|] == history;
      hide Sound, Accounted, ListsOf, TouchRun, Misses;
      history := longer;
    }

    /** The first half of an access: its lines are looked up. */
    method Lookups(first: nat, count: nat, write: bool, nextLatency: nat, now: int) returns (ready: int)
      requires Valid() && first + count <= INVALID && 0 <= now
      modifies this`lruCounter, this`victims, this`order, this`dirtyLines, this`lands, this`nextLevelFree,
               this`nbHit, this`nbMiss, tags, lru, lineReady, dirty
      ensures Valid()
      ensures |old(Lists())| > 0 && nbWays > 0
      ensures Clock(nextLevelFree, lands, ready) ==
              RunTimed(Figs(), old(Clock(nextLevelFree, lands, now + hitLatency)), old(Lists()), nbWays, first, count,
                       !write || writeAllocate, nextLatency, now)
      ensures Referenced(old(Lists()), Lists(), nbWays, first, count, !write || writeAllocate,
                         old(nbHit), nbHit, old(nbMiss), nbMiss)
      ensures WellKept(old(Lists()), nbWays) && |old(Lists())| == nbSets
      ensures writeback && write ==> Lists() == TouchRun(old(Lists()), first, count, true, nbWays)
      ensures old(victims) <= victims && dirtyLines <= old(dirtyLines)
    {
      ListsWellKept(nbSets, nbWays, tags[..], lru[..], order, lruCounter);
      assert writeback ==> writeAllocate;
      ghost var lists := Lists();
      hide *;
      ready := TouchLines(first, count, !write || writeAllocate, now, nextLatency, now + hitLatency);
      ReferencedLists(lists, Lists(), nbWays, first, count, !write || writeAllocate,
                      old(nbHit), nbHit, old(nbMiss), nbMiss);
    }

    lemma ReferencedLists(lists: seq<seq<nat>>, lists': seq<seq<nat>>, ways: nat, first: nat, count: nat,
                          allocate: bool,
                          hits: nat, hits': nat, misses: nat, misses': nat)
      requires Referenced(lists, lists', ways, first, count, allocate, hits, hits', misses, misses')
      ensures |lists| > 0 && ways > 0 && lists' == TouchRun(lists, first, count, allocate, ways)
    {
    }

    method CountAccess(write: bool)
      requires Valid()
      modifies this`nbRead, this`nbWrite
      ensures Valid() && Lists() == old(Lists())
      ensures nbRead == old(nbRead) + (if write then 0 else 1) && nbWrite == old(nbWrite) + (if write then 1 else 0)
    {
      if write { nbWrite := nbWrite + 1; } else { nbRead := nbRead + 1; }
    }

    /** The end of a write: its lines turn dirty, or it is handed to the store buffer. */
    method Settle(first: nat, count: nat, now: int, ready: int, ghost lists: seq<seq<nat>>) returns (ready': int)
      requires Valid() && first + count <= INVALID && WellKept(lists, nbWays) && |lists| == nbSets
      requires writeback ==> Lists() == TouchRun(lists, first, count, true, nbWays)
      modifies this`dirtyLines, this`dirtied, this`nextLevelFree, dirty
      ensures Valid() && Lists() == old(Lists())
      ensures var k := old(Clock(nextLevelFree, lands, ready));
              Clock(nextLevelFree, lands, ready') == if writeback then k else Buffered(Figs(), k, now)
      ensures writeback ==> (AllDirty(dirtyLines, first, count) <==> count <= nbWays * nbSets)
      ensures !writeback ==> dirtyLines == old(dirtyLines) && dirtied == old(dirtied)
    {
      hide Sound, Accounted, Tracks, Balanced, DirtyTracks, ListsOf, TouchRun, Resident, WellKept;
      ready' := ready;
      if writeback {
        MarkLines(first, count);
        WriteLeavesDirty(lists, first, count);
      } else {
        var start := Max(now, nextLevelFree);
        nextLevelFree := start + writeCycles;
        ready' := Max(ready, nextLevelFree - storeBufferCycles);
      }
    }

    /** After the marking a line of the write is dirty exactly if it stayed resident. */
    lemma WriteLeavesDirty(lists: seq<seq<nat>>, first: nat, count: nat)
      requires Valid() && first + count <= INVALID && WellKept(lists, nbWays) && |lists| == nbSets
      requires Lists() == TouchRun(lists, first, count, true, nbWays)
      requires forall line :: first <= line < first + count && Holds(line) ==> line in dirtyLines
      ensures AllDirty(dirtyLines, first, count) <==> count <= nbWays * nbSets
    {
      SpanResidentIff(lists, first, count, nbWays);
      hide Tracks, Balanced, ListsOf, TouchRun;
      forall line: nat | first <= line < first + count && line in dirtyLines ensures Resident(Lists(), line) {
        DirtyIsHeld(line);
      }
    }

    /** A dirty line is resident. */
    lemma DirtyIsHeld(line: nat)
      requires Valid() && line in dirtyLines
      ensures Holds(line)
    {
      assert IsDirty(tags[..], dirty[..], line);
      var i :| 0 <= i < tags.Length && tags[i] == line && dirty[i];
      var s, w := SlotOf(i, nbSets, nbWays);
      SlotFits(nbSets, nbWays, s);
      assert Row(tags[..], s, nbWays)[w] == line;
      assert SetTracks(nbSets, nbWays, tags[..], lru[..], order, lruCounter, s);
      RowHolds(nbSets, nbWays, tags[..], lru[..], order, lruCounter, line);
    }

    /** Writes the victims back: each line fetched unnoticed and written as a real access. */
    method FlushVictims()
      requires Valid()
      modifies this`victims, this`nbWriteback, this`flushed, this`down
      ensures Valid() && victims == []
      ensures nbWriteback == old(nbWriteback) + |old(victims)| && flushed == old(flushed) + multiset(old(victims))
      ensures down == old(down) + Flushes(old(victims), lineSize)
      ensures old(down) <= down && WroteBack(down[|old(down)|..], old(victims), lineSize)
    {
      hide Tracks, DirtyTracks, Flushes, WroteBack, Spans;
      FlushesWriteBack(victims, lineSize);
      BalanceFlush(dirtied, flushed, victims, dirtyLines);
      WriteBack(victims);
      flushed := flushed + multiset(victims);
      victims := [];
    }

    method WriteBack(lines: seq<nat>)
      modifies this`nbWriteback, this`down
      ensures nbWriteback == old(nbWriteback) + |lines| && down == old(down) + Flushes(lines, lineSize)
    {
      ghost var sent := down;
      var i := 0;
      while i < |lines|
        invariant i <= |lines| && nbWriteback == old(nbWriteback) + i
        invariant down == sent + Flushes(lines[..i], lineSize)
      {
        assert lines[..i + 1][..i] == lines[..i];
        down := down + [Down(lines[i] * lineSize, lineSize, false, false),
                        Down(lines[i] * lineSize, lineSize, true, true)];
        nbWriteback := nbWriteback + 1;
        i := i + 1;
      }
      assert lines[..i] == lines;
    }

    /**
      A request in write-through mode. The next level notices a read exactly when it records a miss
      here, so the reads it times are this cache's missing reads and no others. The latency is that
      of the access, given the next level's.
     */
    method Request(addr: nat, size: nat, write: bool, debug: bool, status: Status, nextLatency: nat, now: int)
      returns (latency: int)
      requires Valid() && !writeback && Addressable(addr, size) && 0 <= now
      modifies this, tags, lru, lineReady, dirty
      ensures Valid()
      ensures |down| == |old(down)| + 1 && down[..|old(down)|] == old(down)
      ensures var d := down[|old(down)|]; d.addr == addr && d.size == size && d.write == write
      ensures history == old(history) +
                         (if debug || status.Invalid? then []
                          else [LruList.Access(FirstLine(addr), LineCount(addr, size), write)])
      ensures old(Replayed()) ==> Replayed()
      ensures debug ==> !down[|old(down)|].timed
      ensures write && !debug ==> down[|old(down)|].timed
      ensures debug || status.Invalid? ==> Lists() == old(Lists()) && nbMiss == old(nbMiss) && nbHit == old(nbHit)
      ensures debug || status.Invalid? ==> latency == 0 && nextLevelFree == old(nextLevelFree) && lands == old(lands)
      ensures !debug && status.Ok? ==>
                Answered(Figs(), old(Lists()), nbWays, LruList.Access(FirstLine(addr), LineCount(addr, size), write),
                         writeAllocate, writeback, nextLatency, now,
                         old(nextLevelFree), nextLevelFree, old(lands), lands, latency)
      ensures !debug && status.Ok? ==>
                Lists() ==
                TouchRun(old(Lists()), FirstLine(addr), LineCount(addr, size), !write || writeAllocate, nbWays)
      ensures !debug && status.Ok? && !write ==> (down[|old(down)|].timed <==> nbMiss > old(nbMiss))
    {
      var first, count := FirstLine(addr), LineCount(addr, size);
      ListsWellKept(nbSets, nbWays, tags[..], lru[..], order, lruCounter);
      NoMissIff(Lists(), first, count, !write || writeAllocate, nbWays);
      hide Sound, Accounted, Tracks, Balanced, DirtyTracks, ListsOf, TouchRun, Misses, AllResident, WellKept,
           Answered;
      var servedHere := false;
      if !debug && !write { servedHere := Probe(addr, size); }
      down := down + [Down(addr, size, write, !debug && !servedHere)];
      latency := 0;
      if debug || status.Invalid? { return; }
      latency := Access(addr, size, write, nextLatency, now);
    }

    /**
      A request in write-back mode: a read miss goes down as it is, a write miss as a timed read of
      its lines, and every dirty line given up as a timed write of its own. The next level times a
      read exactly when a miss is recorded here. The latency is that of the access, given the next
      level's for the one read.
     */
    method RequestWriteback(addr: nat, size: nat, write: bool, debug: bool, status: Status, nextLatency: nat, now: int)
      returns (latency: int, ghost gone: seq<nat>)
      requires Valid() && writeback && victims == [] && Addressable(addr, size) && 0 <= now
      modifies this, tags, lru, lineReady, dirty
      ensures Valid() && victims == []
      ensures debug || status.Invalid? ==> Lists() == old(Lists()) && nbMiss == old(nbMiss) &&
                                           dirtyLines == old(dirtyLines)
      ensures debug || status.Invalid? ==> latency == 0 && nextLevelFree == old(nextLevelFree) && lands == old(lands)
      ensures !debug && status.Ok? ==>
                Answered(Figs(), old(Lists()), nbWays, LruList.Access(FirstLine(addr), LineCount(addr, size), write),
                         writeAllocate, writeback,
                         if old(AllResident(Lists(), FirstLine(addr), LineCount(addr, size))) then 0 else nextLatency,
                         now,
                         old(nextLevelFree), nextLevelFree, old(lands), lands, latency)
      ensures history == old(history) +
                         (if debug || status.Invalid? then []
                          else [LruList.Access(FirstLine(addr), LineCount(addr, size), write)])
      ensures old(Replayed()) ==> Replayed()
      ensures debug ==> TimedReads(down) == TimedReads(old(down))
      ensures !debug && status.Ok? ==>
                Referenced(old(Lists()), Lists(), nbWays, FirstLine(addr), LineCount(addr, size), true, old(nbHit),
                           nbHit, old(nbMiss), nbMiss)
      ensures !debug && status.Ok? ==>
                TimedReads(down) == TimedReads(old(down)) + (if nbMiss > old(nbMiss) then 1 else 0)
      ensures TimedWrites(down) - TimedWrites(old(down)) == nbWriteback - old(nbWriteback)
      ensures |dirtied| == nbWriteback + |dirtyLines|
      ensures flushed == old(flushed) + multiset(gone) && (debug || status.Invalid? ==> gone == [])
      ensures !debug && status.Ok? ==>
                SentDown(old(down), down, addr, size, write,
                         old(AllResident(Lists(), FirstLine(addr), LineCount(addr, size))),
                         FirstLine(addr), LineCount(addr, size), gone, lineSize)
      ensures debug ==> down == old(down) + [Down(addr, size, write, false)]
      ensures write && !debug && status.Ok? ==>
                (AllDirty(dirtyLines, FirstLine(addr), LineCount(addr, size)) <==>
                 LineCount(addr, size) <= nbWays * nbSets)
    {
      DirtyCount();
      hide Sound, Accounted, ListsOf, Referenced, TimedReads, TimedWrites, Cache.FirstLine, Cache.LineCount, AllDirty,
           Answered, AllResident, SentDown;
      if debug {
        Send(Down(addr, size, write, false));
        NoneGone(flushed);
        return 0, [];
      }
      var resident := Probe(addr, size);
      ProbeTells(FirstLine(addr), LineCount(addr, size));
      latency, gone := Serve(addr, size, write, resident, status, nextLatency, now);
    }

    /** What the probe says is whether the access would miss. */
    lemma ProbeTells(first: nat, count: nat)
      requires Valid()
      ensures AllResident(Lists(), first, count) <==> Misses(Lists(), first, count, true, nbWays) == 0
    {
      ListsWellKept(nbSets, nbWays, tags[..], lru[..], order, lruCounter);
      NoMissIff(Lists(), first, count, true, nbWays);
    }

    /** A request that is not a debug access, once the tags have been probed. */
    method Serve(addr: nat, size: nat, write: bool, resident: bool, status: Status, nextLatency: nat, now: int)
      returns (latency: int, ghost gone: seq<nat>)
      requires Valid() && writeback && victims == [] && Addressable(addr, size) && 0 <= now
      requires resident <==> Misses(Lists(), FirstLine(addr), LineCount(addr, size), true, nbWays) == 0
      modifies this, tags, lru, lineReady, dirty
      ensures Valid() && victims == []
      ensures status.Invalid? ==> Lists() == old(Lists()) && nbMiss == old(nbMiss) && dirtyLines == old(dirtyLines)
      ensures status.Invalid? ==> latency == 0 && nextLevelFree == old(nextLevelFree) && lands == old(lands)
      ensures status.Ok? ==>
                Answered(Figs(), old(Lists()), nbWays, LruList.Access(FirstLine(addr), LineCount(addr, size), write),
                         writeAllocate, writeback, if resident then 0 else nextLatency, now,
                         old(nextLevelFree), nextLevelFree, old(lands), lands, latency)
      ensures history == old(history) + (if status.Invalid? then []
                                         else [LruList.Access(FirstLine(addr), LineCount(addr, size), write)])
      ensures old(Replayed()) ==> Replayed()
      ensures status.Ok? ==>
                Referenced(old(Lists()), Lists(), nbWays, FirstLine(addr), LineCount(addr, size), true, old(nbHit),
                           nbHit, old(nbMiss), nbMiss)
      ensures status.Ok? ==> TimedReads(down) == TimedReads(old(down)) + (if nbMiss > old(nbMiss) then 1 else 0)
      ensures TimedWrites(down) - TimedWrites(old(down)) == nbWriteback - old(nbWriteback)
      ensures |dirtied| == nbWriteback + |dirtyLines|
      ensures flushed == old(flushed) + multiset(gone) && (status.Invalid? ==> gone == [])
      ensures status.Ok? ==>
                SentDown(old(down), down, addr, size, write, resident, FirstLine(addr), LineCount(addr, size), gone,
                         lineSize)
      ensures status.Invalid? ==> down == old(down) + [Down(addr, size, write, !resident && !write)]
      ensures write && status.Ok? ==>
                (AllDirty(dirtyLines, FirstLine(addr), LineCount(addr, size)) <==>
                 LineCount(addr, size) <= nbWays * nbSets)
    {
      hide ListsOf, Referenced, Misses, TimedReads, TimedWrites, Cache.FirstLine, Cache.LineCount,
           AllDirty, Answered, SentDown, WroteBack, Sound, Accounted, Balanced, DirtyTracks;
      DirtyCount();
      ghost var lists := Lists();
      ghost var was := down;
      Forward(addr, size, write, resident, status, FirstLine(addr), LineCount(addr, size));
      ghost var mid := down;
      gone := [];
      if status.Invalid? {
        NoneGone(flushed);
        return 0, [];
      }
      latency, gone := Complete(addr, size, write, if resident then 0 else nextLatency, now);
      ReferencedMisses(lists, Lists(), nbWays, FirstLine(addr), LineCount(addr, size), true, old(nbHit), nbHit,
                       old(nbMiss), nbMiss);
      SentThenGone(was, mid, down, addr, size, write, resident, FirstLine(addr), LineCount(addr, size), gone, lineSize);
    }

    lemma NoneGone(flushed: multiset<nat>)
      ensures var none: seq<nat> := []; flushed + multiset(none) == flushed
    {
    }

    /**
      Sends the request down, as a real access only if it is a read that misses; a write miss also fetches
      its lines.
     */
    method Forward(addr: nat, size: nat, write: bool, resident: bool, status: Status, first: nat, count: nat)
      modifies this`down
      ensures TimedReads(down) == TimedReads(old(down)) + (if resident || (write && status.Invalid?) then 0 else 1)
      ensures TimedWrites(down) == TimedWrites(old(down))
      ensures lineSize > 0 && status.Ok? ==>
                SentDown(old(down), down, addr, size, write, resident, first, count, [], lineSize)
      ensures status.Invalid? ==> down == old(down) + [Down(addr, size, write, !resident && !write)]
    {
      hide TimedReads, TimedWrites, Spans;
      ghost var was := down;
      var isRefill := !resident && !write;
      Send(Down(addr, size, write, isRefill));
      if status.Invalid? { return; }
      if !isRefill && !resident {
        if lineSize > 0 { WholeLines(first, count, lineSize, false, true); }
        Send(Down(first * lineSize, count * lineSize, false, true));
      }
      assert down[|was|..][if write && !resident then 2 else 1..] == [];
    }

    lemma ReferencedMisses(lists: seq<seq<nat>>, lists': seq<seq<nat>>, ways: nat, first: nat, count: nat,
                           allocate: bool,
                           hits: nat, hits': nat, misses: nat, misses': nat)
      requires Referenced(lists, lists', ways, first, count, allocate, hits, hits', misses, misses')
      ensures |lists| > 0 && ways > 0 && misses' == misses + Misses(lists, first, count, allocate, ways)
    {
    }

    /** As many lines turned dirty as were written back or are dirty still. */
    lemma DirtyCount()
      requires Valid() && victims == []
      ensures |dirtied| == nbWriteback + |dirtyLines|
    {
      BalanceCounts(dirtied, flushed, dirtyLines);
    }

    /** The access itself, then the write-backs it caused. */
    method Complete(addr: nat, size: nat, write: bool, nextLatency: nat, now: int)
      returns (latency: int, ghost gone: seq<nat>)
      requires Valid() && writeback && victims == [] && Addressable(addr, size) && 0 <= now
      modifies this, tags, lru, lineReady, dirty
      ensures Valid() && victims == []
      ensures Answered(Figs(), old(Lists()), nbWays, LruList.Access(FirstLine(addr), LineCount(addr, size), write),
                       writeAllocate, writeback, nextLatency, now,
                       old(nextLevelFree), nextLevelFree, old(lands), lands, latency)
      ensures Referenced(old(Lists()), Lists(), nbWays, FirstLine(addr), LineCount(addr, size), true, old(nbHit), nbHit,
                         old(nbMiss), nbMiss)
      ensures history == old(history) + [LruList.Access(FirstLine(addr), LineCount(addr, size), write)]
      ensures old(Replayed()) ==> Replayed()
      ensures TimedReads(down) == TimedReads(old(down))
      ensures TimedWrites(down) - TimedWrites(old(down)) == nbWriteback - old(nbWriteback)
      ensures |dirtied| == nbWriteback + |dirtyLines|
      ensures old(down) <= down && WroteBack(down[|old(down)|..], gone, lineSize)
      ensures flushed == old(flushed) + multiset(gone)
      ensures write ==> (AllDirty(dirtyLines, FirstLine(addr), LineCount(addr, size)) <==>
                         LineCount(addr, size) <= nbWays * nbSets)
    {
      hide Sound, Accounted, Tracks, Balanced, DirtyTracks, ListsOf, TouchRun, Misses, TimedReads, TimedWrites,
           Cache.FirstLine, Cache.LineCount, Answered, WroteBack;
      latency := Access(addr, size, write, nextLatency, now);
      FlushesSend(down, victims, lineSize);
      gone := victims;
      FlushVictims();
      DirtyCount();
    }

    method Send(ghost d: Down)
      modifies this`down
      ensures down == old(down) + [d]
      ensures TimedReads(down) == TimedReads(old(down)) + (if d.timed && !d.write then 1 else 0)
      ensures TimedWrites(down) == TimedWrites(old(down)) + (if d.timed && d.write then 1 else 0)
    {
      assert (down + [d])[..|down|] == down;
      down := down + [d];
    }
  }

  lemma AnswerIs(f: Figures, lists: seq<seq<nat>>, ways: nat, a: LruList.Access, writeAllocate: bool, writeback: bool,
                 next: nat, now: int, free: int, lands: map<nat, int>, k: Clock, k': Clock)
    requires |lists| > 0 && ways > 0
    requires k == RunTimed(f, Clock(free, lands, now + f.hit), lists, ways, a.first, a.count,
                           !a.write || writeAllocate, next, now)
    requires k' == if a.write && !writeback then Buffered(f, k, now) else k
    ensures Answered(f, lists, ways, a, writeAllocate, writeback, next, now, free, k'.free, lands, k'.lands,
                     if k'.ready > now then k'.ready - now else 0)
  {
    hide RunTimed, Buffered;
  }

  /**
    The latency is at most t cycles exactly if t cycles after the access came the lookup is through,
    every line that hit has landed, so has the last refill, and what the store buffer cannot hide of
    a write-through write has gone out.
   */
  lemma LatencyIff(f: Figures, lists: seq<seq<nat>>, ways: nat, a: LruList.Access, writeAllocate: bool,
                   writeback: bool, next: nat, now: int, free: int, free': int, lands: map<nat, int>,
                   lands': map<nat, int>, latency: int, t: nat)
    requires Answered(f, lists, ways, a, writeAllocate, writeback, next, now, free, free', lands, lands', latency)
    ensures |lists| > 0 && ways > 0
    ensures var allocate := !a.write || writeAllocate;
            var refills := if allocate then Misses(lists, a.first, a.count, allocate, ways) else 0;
            latency <= t <==>
            && f.hit <= t
            && LandedBy(f, Clock(free, lands, now + f.hit), lists, ways, a.first, a.count, allocate, next, now, now + t)
            && (a.write && !writeback ==> Max(now, PortAfter(f, free, now, refills)) + f.write - f.buffer <= now + t)
  {
    hide AccessTimed, LandedBy, Misses, PortAfter;
    AnsweredIff(f, free, lands, lists, ways, a, writeAllocate, writeback, next, now, now + t);
  }

  lemma LineOfMono(x: nat, y: nat, lineSize: nat)
    requires lineSize > 0 && x <= y
    ensures LineOf(x, lineSize) <= LineOf(y, lineSize)
  {
    if y / lineSize < x / lineSize { MulStep(y / lineSize, x / lineSize, lineSize); }
  }

  lemma InLine(line: nat, lineSize: nat, addr: nat, last: nat)
    requires lineSize > 0 && LineOf(addr, lineSize) <= line <= LineOf(last, lineSize) && addr <= last
    ensures exists x: nat :: addr <= x < last + 1 && LineOf(x, lineSize) == line
  {
    if LineOf(addr, lineSize) == line {
      assert addr < last + 1;
    } else {
      MulMono(0, line, lineSize);
      MulMono(line, last / lineSize, lineSize);
      MulStep(addr / lineSize, line, lineSize);
      Digits(line * lineSize, lineSize, line, 0);
      var x: nat := line * lineSize;
      assert addr <= x < last + 1 && LineOf(x, lineSize) == line;
    }
  }

  lemma EmptyTracks(n: nat, ways: nat, tags: seq<nat>, lru: seq<nat>)
    requires n > 0 && ways > 0 && |tags| == |lru| == n * ways
    requires forall i :: 0 <= i < |tags| ==> tags[i] == INVALID && lru[i] == 0
    ensures Tracks(n, ways, tags, lru, Empty(n), 0) && ListsOf(n, ways, tags, Empty(n)) == Empty(n)
  {
    forall s: nat | s < n ensures SetTracks(n, ways, tags, lru, Empty(n), 0, s) {
      SlotFits(n, ways, s);
      hide Slot;
      forall w: nat | w < ways ensures Row(tags, s, ways)[w] == INVALID && Row(lru, s, ways)[w] == 0 {
        assert Slot(s, w, ways) < Slot(s, ways, ways);
      }
    }
  }

  lemma EmptyAccounts(tags: seq<nat>, dirty: seq<bool>)
    requires |tags| == |dirty| && forall i :: 0 <= i < |dirty| ==> !dirty[i]
    ensures forall writeback :: Accounted(tags, dirty, {}, multiset{}, multiset{}, [], 0, writeback)
  {
    var none: seq<nat> := [];
    assert multiset(none) == multiset{};
  }

  /**
    Two caches that saw the same accesses: the one with more ways holds at least the other's lines and
    missed no more often.
   */
  lemma MoreWays(a: Cache, b: Cache)
    requires a.Valid() && b.Valid() && a.Replayed() && b.Replayed()
    requires a.nbSets == b.nbSets && a.history == b.history && a.writeAllocate == b.writeAllocate &&
             a.nbWays <= b.nbWays
    ensures forall line :: a.Holds(line) ==> b.Holds(line)
    ensures b.nbMiss <= a.nbMiss
  {
    Inclusion(a.nbSets, a.history, a.writeAllocate, a.nbWays, b.nbWays);
  }

  lemma RunStart(sets: seq<seq<nat>>, first: nat, allocate: bool, ways: nat)
    requires |sets| > 0 && ways > 0
    ensures TouchRun(sets, first, 0, allocate, ways) == sets && Misses(sets, first, 0, allocate, ways) == 0
  {
  }

  lemma LastNotBefore(addr: nat, size: nat, lineSize: nat)
    requires lineSize > 0
    ensures 0 <= addr / lineSize <= (addr + Max(size, 1) - 1) / lineSize
  {
    var e := addr + Max(size, 1) - 1;
    DivNonNegative(addr, lineSize);
    if e / lineSize < addr / lineSize { MulStep(e / lineSize, addr / lineSize, lineSize); }
  }
}
