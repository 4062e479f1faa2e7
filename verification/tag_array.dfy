/**
  The stamped tag array of the timing cache (`targets/hetero/timing_cache.cpp`) on values: per set
  a row of tags and a row of stamps. It stands for a recency list (`LruList`): `order` lists the
  ways that hold a line, latest stamp first. Proved: what `lookup` does to the rows is what a
  reference does to the list, and the way with the lowest stamp is the one to give up.
 */
module TagArray {
  import opened LruList

  /** Tag of a way that holds nothing. */
  const INVALID: nat := 0xFFFF_FFFF_FFFF_FFFF

  ghost predicate Ways(order: seq<nat>, n: nat) { forall i :: 0 <= i < |order| ==> order[i] < n }

  /** Rows of tags and stamps, the ways in use by age, and a bound on the stamps given out. */
  ghost predicate Stands(tags: seq<nat>, lru: seq<nat>, order: seq<nat>, counter: nat) {
    && |tags| == |lru| && Ways(order, |tags|)
    && Unique(order) && (forall w: nat :: w in order <==> w < |tags| && tags[w] != INVALID)
    && (forall i, j :: 0 <= i < j < |order| ==> lru[order[i]] > lru[order[j]])
    && (forall w :: 0 <= w < |tags| ==> lru[w] <= counter && (lru[w] == 0 <==> tags[w] == INVALID))
    && (forall w, v :: 0 <= w < v < |tags| && tags[w] != INVALID ==> tags[w] != tags[v])
  }

  /** The recency list the rows stand for. */
  ghost function ListOf(tags: seq<nat>, order: seq<nat>): (l: seq<nat>)
    ensures |l| == |order| && forall i :: 0 <= i < |l| && order[i] < |tags| ==> l[i] == tags[order[i]]
  {
    seq(|order|, i requires 0 <= i < |order| => if order[i] < |tags| then tags[order[i]] else INVALID)
  }

  lemma ListFacts(tags: seq<nat>, lru: seq<nat>, order: seq<nat>, counter: nat)
    requires Stands(tags, lru, order, counter)
    ensures Unique(ListOf(tags, order))
    ensures forall line :: line in ListOf(tags, order) <==> line in tags && line != INVALID
  {
    var l := ListOf(tags, order);
    forall line | line in tags && line != INVALID ensures line in l {
      var w :| 0 <= w < |tags| && tags[w] == line;
      assert w in order;
      var i :| 0 <= i < |order| && order[i] == w;
      assert l[i] == line;
    }
    forall i, j | 0 <= i < j < |l| ensures l[i] != l[j] {
      assert order[i] in order && order[j] in order && order[i] != order[j];
    }
  }

  /* ---- Counting ways ---- */

  /** Numbers below n without repetition are at most n, and all of them if they are n. */
  lemma {:induction false} Pigeons(l: seq<nat>, n: nat)
    requires Unique(l) && Ways(l, n)
    ensures |l| <= n
    ensures |l| == n ==> forall x: nat :: x < n ==> x in l
    decreases n
  {
    if l != [] {
      assert l[0] < n;
      var rest := Without(l, n - 1);
      WithoutMembers(l, n - 1);
      forall i | 0 <= i < |rest| ensures rest[i] < n - 1 { assert rest[i] in rest; }
      Pigeons(rest, n - 1);
      if |l| == n {
        forall x: nat | x < n ensures x in l {
          if x < n - 1 { assert x in rest; } else { RestShorter(l, n - 1); }
        }
      }
    }
  }

  lemma RestShorter(l: seq<nat>, m: nat)
    requires Unique(l) && |l| == m + 1 && |Without(l, m)| <= m
    ensures m in l
  {
    WithoutMembers(l, m);
  }

  /** A row with a free way has room in its list; one without has a full list. */
  lemma Room(tags: seq<nat>, lru: seq<nat>, order: seq<nat>, counter: nat)
    requires Stands(tags, lru, order, counter)
    ensures |order| <= |tags|
    ensures |order| == |tags| <==> INVALID !in tags
  {
    Pigeons(order, |tags|);
    if INVALID !in tags {
      forall w: nat | w < |tags| ensures w in order { assert tags[w] in tags; }
      AllPigeons(order, |tags|);
    } else {
      var w: nat :| w < |tags| && tags[w] == INVALID;
      assert w !in order;
    }
  }

  lemma {:induction false} AllPigeons(l: seq<nat>, n: nat)
    requires Unique(l) && forall x: nat :: x < n ==> x in l
    ensures n <= |l|
    decreases n
  {
    if n > 0 {
      WithoutMembers(l, n - 1);
      AllPigeons(Without(l, n - 1), n - 1);
    }
  }

  /* ---- A hit ---- */

  /** The ways in use once way w has become the most recent. */
  ghost function Moved(order: seq<nat>, w: nat): seq<nat> { [w] + Without(order, w) }

  lemma MovedIs(order: seq<nat>, w: nat, i: nat)
    requires Unique(order) && i < |order| && order[i] == w
    ensures var m := Moved(order, w);
            && |m| == |order| && m[0] == w && Unique(m)
            && (forall j :: 0 < j < |m| ==> m[j] == order[if j <= i then j - 1 else j])
            && (forall v :: v in m <==> v in order)
  {
    WithoutMembers(order, w);
    WithoutAt(order, i);
    UniqueFront(w, Without(order, w));
    hide Without, Unique;
    assert Without(order, w) == order[..i] + order[i + 1..];
    forall v ensures v in Moved(order, w) <==> v in order {
      assert v in Moved(order, w) <==> v == w || v in Without(order, w);
    }
  }

  /** The way found moves to the front and gets the next stamp. */
  lemma HitStands(tags: seq<nat>, lru: seq<nat>, order: seq<nat>, counter: nat, w: nat)
    requires Stands(tags, lru, order, counter) && w < |tags| && tags[w] != INVALID
    ensures Stands(tags, lru[w := counter + 1], Moved(order, w), counter + 1)
  {
    assert w in order;
    var i :| 0 <= i < |order| && order[i] == w;
    MovedIs(order, w, i);
    hide Moved, Unique;
    var m, lru' := Moved(order, w), lru[w := counter + 1];
    forall j | 0 <= j < |m| ensures m[j] < |tags| { assert m[j] in m; }
    forall j, k | 0 <= j < k < |m| ensures lru'[m[j]] > lru'[m[k]] {
      assert m[k] == order[if k <= i then k - 1 else k] && m[k] != w by { NotSame(m, 0, k); }
    }
  }

  lemma NotSame(m: seq<nat>, j: nat, k: nat)
    requires Unique(m) && j < k < |m|
    ensures m[j] != m[k]
  {
  }

  lemma HitTouches(tags: seq<nat>, lru: seq<nat>, order: seq<nat>, counter: nat, w: nat, allocate: bool)
    requires Stands(tags, lru, order, counter) && w < |tags| && tags[w] != INVALID
    ensures Ways(Moved(order, w), |tags|)
    ensures tags[w] in ListOf(tags, order)
    ensures ListOf(tags, Moved(order, w)) == Touch(ListOf(tags, order), tags[w], allocate, |tags|)
  {
    HitStands(tags, lru, order, counter, w);
    ListFacts(tags, lru, order, counter);
    var l := ListOf(tags, order);
    assert w in order;
    var i :| 0 <= i < |order| && order[i] == w;
    hide Moved, Without, Stands, Unique, ListOf;
    MovedList(tags, order, w, i);
  }

  lemma MovedList(tags: seq<nat>, order: seq<nat>, w: nat, i: nat)
    requires Ways(order, |tags|) && Unique(order) && i < |order| && order[i] == w && Unique(ListOf(tags, order))
    ensures Ways(Moved(order, w), |tags|) && tags[w] in ListOf(tags, order)
    ensures ListOf(tags, Moved(order, w)) == [tags[w]] + Without(ListOf(tags, order), tags[w])
  {
    var l := ListOf(tags, order);
    MovedIs(order, w, i);
    WithoutAt(l, i);
    hide Moved, Without, Unique;
    assert l[i] == tags[w];
    assert ListOf(tags, Moved(order, w)) == [tags[w]] + (l[..i] + l[i + 1..]);
  }

  /* ---- A miss ---- */

  ghost predicate Oldest(lru: seq<nat>, v: nat) { v < |lru| && forall w :: 0 <= w < |lru| ==> lru[v] <= lru[w] }

  /** The oldest way is free if any is, else it holds the last line of the list. */
  lemma VictimIs(tags: seq<nat>, lru: seq<nat>, order: seq<nat>, counter: nat, v: nat)
    requires Stands(tags, lru, order, counter) && Oldest(lru, v)
    ensures tags[v] == INVALID <==> |order| < |tags|
    ensures tags[v] != INVALID ==> |order| == |tags| > 0 && order[|order| - 1] == v
  {
    Room(tags, lru, order, counter);
    if INVALID in tags {
      var w: nat :| w < |tags| && tags[w] == INVALID;
      assert lru[v] <= lru[w] == 0;
    } else {
      assert tags[v] in tags;
      assert v in order;
      var i :| 0 <= i < |order| && order[i] == v;
      var last := order[|order| - 1];
      assert lru[v] <= lru[last];
      assert forall j :: 0 <= j < |order| - 1 ==> lru[order[j]] > lru[last];
    }
  }

  /** The ways in use once the victim has been given up. */
  ghost function Kept(tags: seq<nat>, order: seq<nat>, v: nat): seq<nat>
    requires v < |tags|
  {
    if tags[v] == INVALID || order == [] then order else order[..|order| - 1]
  }

  lemma KeptMembers(tags: seq<nat>, lru: seq<nat>, order: seq<nat>, counter: nat, v: nat)
    requires Stands(tags, lru, order, counter) && Oldest(lru, v)
    ensures Unique(Kept(tags, order, v)) && v !in Kept(tags, order, v)
    ensures forall w :: w in Kept(tags, order, v) <==> w in order && w != v
  {
    VictimIs(tags, lru, order, counter, v);
    assert Unique(order) && (tags[v] == INVALID ==> v !in order);
    hide Stands, Oldest;
    if tags[v] != INVALID {
      assert order == order[..|order| - 1] + [v];
    }
  }

  lemma MissStands(tags: seq<nat>, lru: seq<nat>, order: seq<nat>, counter: nat, v: nat, line: nat)
    requires Stands(tags, lru, order, counter) && Oldest(lru, v) && line !in tags && line != INVALID
    ensures Stands(tags[v := line], lru[v := counter + 1], [v] + Kept(tags, order, v), counter + 1)
  {
    KeptMembers(tags, lru, order, counter, v);
    UniqueFront(v, Kept(tags, order, v));
    MissOrder(tags, lru, order, counter, v);
    var order', tags' := [v] + Kept(tags, order, v), tags[v := line];
    forall w: nat ensures w in order' <==> w < |tags| && tags'[w] != INVALID {
      assert w in order' <==> w == v || w in Kept(tags, order, v);
    }
    hide Kept, Unique;
    assert forall w :: 0 <= w < |tags| ==> tags[w] in tags;
  }

  lemma MissOrder(tags: seq<nat>, lru: seq<nat>, order: seq<nat>, counter: nat, v: nat)
    requires Stands(tags, lru, order, counter) && Oldest(lru, v)
    ensures var order' := [v] + Kept(tags, order, v);
            && Ways(order', |tags|)
            && forall i, j :: 0 <= i < j < |order'| ==>
                 lru[v := counter + 1][order'[i]] > lru[v := counter + 1][order'[j]]
  {
    KeptMembers(tags, lru, order, counter, v);
    var kept := Kept(tags, order, v);
    forall i | 0 <= i < |kept| ensures kept[i] == order[i] && kept[i] != v { assert kept[i] in kept; }
  }

  lemma MissTouches(tags: seq<nat>, lru: seq<nat>, order: seq<nat>, counter: nat, v: nat, line: nat)
    requires Stands(tags, lru, order, counter) && Oldest(lru, v) && line !in tags && line != INVALID
    ensures Ways([v] + Kept(tags, order, v), |tags|)
    ensures line !in ListOf(tags, order)
    ensures ListOf(tags[v := line], [v] + Kept(tags, order, v)) == Touch(ListOf(tags, order), line, true, |tags|)
  {
    ListFacts(tags, lru, order, counter);
    KeptMembers(tags, lru, order, counter, v);
    KeptTail(tags, lru, order, counter, v);
    NewFront(tags, Kept(tags, order, v), v, line);
    hide Stands, Unique, ListOf, Kept, Oldest;
    assert ListOf(tags, order)[..|order|] == ListOf(tags, order);
  }

  /** What is kept is the list without its last line, if the row is full, and the whole list if not. */
  lemma KeptTail(tags: seq<nat>, lru: seq<nat>, order: seq<nat>, counter: nat, v: nat)
    requires Stands(tags, lru, order, counter) && Oldest(lru, v)
    ensures var kept := Kept(tags, order, v);
            && Ways(kept, |tags|) && |order| <= |tags| && |tags| > 0
            && |kept| == (if |order| < |tags| then |order| else |tags| - 1)
            && ListOf(tags, kept) == ListOf(tags, order)[..|kept|]
  {
    VictimIs(tags, lru, order, counter, v);
    Room(tags, lru, order, counter);
    assert Ways(order, |tags|);
    hide Stands, Oldest;
  }

  /** A line put into way v, in front of ways other than v. */
  lemma NewFront(tags: seq<nat>, kept: seq<nat>, v: nat, line: nat)
    requires v < |tags| && v !in kept && Ways(kept, |tags|)
    ensures Ways([v] + kept, |tags|) && ListOf(tags[v := line], [v] + kept) == [line] + ListOf(tags, kept)
  {
    forall i | 0 <= i < |kept| ensures kept[i] != v { assert kept[i] in kept; }
  }
}
