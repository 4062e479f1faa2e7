/**
  Refresh in the timing engine (`targets/hetero/dram_core.hpp`): one refresh keeps the command
  history legal; running them one at a time up to a point in time composes; and the idle
  fast-forward reaches the same line as the one-at-a-time loop.
 */
module DramRefresh {
  import opened Arith
  import opened DramDevice
  import opened DramChannel

  /** Every bank is past tRAS, recovered and ready when the refresh may start. */
  lemma BanksReady(p: Params, c: Channel)
    ensures c.nextRefresh <= ReadyAt(p, c) && c.busFree <= ReadyAt(p, c)
    ensures forall b: nat {:trigger c.banks[b]} :: b < |c.banks| ==>
              && c.banks[b].actOk <= ReadyAt(p, c)
              && (c.banks[b].openRow >= 0 ==>
                    c.banks[b].act + p.tRAS <= ReadyAt(p, c) && c.banks[b].preOk <= ReadyAt(p, c))
  {
    var s0 := Max(c.nextRefresh, c.busFree);
    StartOverBounds(p, c.banks, s0, |c.banks|);
    forall b: nat | b < |c.banks|
      ensures c.banks[b].actOk <= ReadyAt(p, c)
      ensures c.banks[b].openRow >= 0 ==> c.banks[b].act + p.tRAS <= ReadyAt(p, c) && c.banks[b].preOk <= ReadyAt(p, c)
    {
      StartOverBounds(p, c.banks, s0, b);
    }
  }

  /** The history functions across the precharge-all of a refresh. */
  lemma AcrossPreAll(p: Params, s: Line, b: nat)
    requires BanksTrack(p, s.c.banks, s.tr)
    ensures var h1 := s.tr + PreAllOf(p, s.c);
            && RowOf(h1, b).Closed?
            && RefCount(h1) == RefCount(s.tr) && ActTimes(h1) == ActTimes(s.tr)
            && LastOf(h1, true) == LastOf(s.tr, true) && LastOf(h1, false) == LastOf(s.tr, false)
  {
    if AnyOpen(s.c.banks) {
      var cmd := PreAll(ReadyAt(p, s.c));
      RowOfSnoc(s.tr, cmd, b);
      LastOfSnoc(s.tr, cmd, true);
      LastOfSnoc(s.tr, cmd, false);
      CountsSnoc(s.tr, cmd);
    } else {
      assert s.tr + PreAllOf(p, s.c) == s.tr;
      if b < |s.c.banks| { assert BankTracks(p, s.c.banks[b], b, s.tr); }
    }
  }

  lemma PreAllIsAllowed(p: Params, s: Line)
    requires p.TimingsOk() && BanksTrack(p, s.c.banks, s.tr) && BusTracks(s.c, s.tr)
    ensures Allowed(p, s.tr, PreAll(ReadyAt(p, s.c)))
  {
    var c, h, at := s.c, s.tr, ReadyAt(p, s.c);
    BanksReady(p, c);
    forall e | e in h ensures Spaced(p, e, PreAll(at)) {
      if e.Col? { assert BankTracks(p, c.banks[e.bank], e.bank, h) && Remembers(p, c.banks[e.bank], e.bank, e); }
    }
    forall b: nat ensures RowOf(h, b).Open? ==> RowOf(h, b).since + p.tRAS <= at {
      if b < |c.banks| { assert BankTracks(p, c.banks[b], b, h); }
    }
  }

  lemma RefIsAllowed(p: Params, s: Line)
    requires p.TimingsOk() && Tracks(p, s)
    ensures Allowed(p, s.tr + PreAllOf(p, s.c), RefOf(p, s.c))
  {
    var c, h, ref := s.c, s.tr, RefOf(p, s.c);
    BanksReady(p, c);
    forall e | e in h + PreAllOf(p, c) ensures Spaced(p, e, ref) {
      if e in h {
        assert BankTracks(p, c.banks[0], 0, h) && Remembers(p, c.banks[0], 0, e);
        if e.Act? { assert BankTracks(p, c.banks[e.bank], e.bank, h) && Remembers(p, c.banks[e.bank], e.bank, e); }
      }
    }
    forall b: nat ensures RowOf(h + PreAllOf(p, c), b).Closed? { AcrossPreAll(p, s, b); }
    AcrossPreAll(p, s, 0);
  }

  lemma RefreshLegal(p: Params, s: Line)
    requires Sound(p, s)
    ensures Legal(p, RefreshOne(p, s).tr)
  {
    var h1 := s.tr + PreAllOf(p, s.c);
    assert Legal(p, h1) by {
      if AnyOpen(s.c.banks) {
        PreAllIsAllowed(p, s);
        LegalSnoc(p, s.tr, PreAll(ReadyAt(p, s.c)));
      } else {
        assert h1 == s.tr;
      }
    }
    RefIsAllowed(p, s);
    LegalSnoc(p, h1, RefOf(p, s.c));
  }

  lemma BankTracksRefresh(p: Params, s: Line, b: nat)
    requires p.TimingsOk() && Tracks(p, s) && b < |s.c.banks|
    ensures BankTracks(p, RefreshOne(p, s).c.banks[b], b, RefreshOne(p, s).tr)
  {
    var s' := RefreshOne(p, s);
    var old', new' := s.c.banks[b], s'.c.banks[b];
    BanksReady(p, s.c);
    assert BankTracks(p, old', b, s.tr);
    AcrossPreAll(p, s, b);
    RowOfSnoc(s.tr + PreAllOf(p, s.c), RefOf(p, s.c), b);
    forall e | e in s'.tr ensures Remembers(p, new', b, e) {
      if e in s.tr { assert Remembers(p, old', b, e); }
    }
  }

  /** A refresh is legal whenever it comes, and the state keeps tracking the history. */
  lemma RefreshSound(p: Params, s: Line)
    requires Sound(p, s) && Shaped(p, s.c)
    ensures Sound(p, RefreshOne(p, s)) && Shaped(p, RefreshOne(p, s).c)
    ensures RefCount(RefreshOne(p, s).tr) == RefCount(s.tr) + 1
  {
    hide BankRecalls, BusRecalls, Legal, StartOver, AnyOpen;
    var s' := RefreshOne(p, s);
    var h1, ref := s.tr + PreAllOf(p, s.c), RefOf(p, s.c);
    assert Legal(p, s'.tr) by { RefreshLegal(p, s); }
    assert BanksTrack(p, s'.c.banks, s'.tr) by {
      forall b: nat | b < |s'.c.banks| ensures BankTracks(p, s'.c.banks[b], b, s'.tr) { BankTracksRefresh(p, s, b); }
      forall b: nat | b >= |s'.c.banks| ensures RowOf(s'.tr, b).Closed? {
        AcrossPreAll(p, s, b);
        RowOfSnoc(h1, ref, b);
      }
    }
    assert BusTracks(s'.c, s'.tr) && FawTracks(s'.c, s'.tr) && RefCount(s'.tr) == RefCount(s.tr) + 1 by {
      RefreshKeepsBus(p, s);
    }
    Successor(RefCount(s.tr) + 1, p.tREFI);
    RefreshRecalls(p, s);
  }

  lemma RefreshRecalls(p: Params, s: Line)
    requires Recalls(p, s) && BanksTrack(p, s.c.banks, s.tr)
    ensures Recalls(p, RefreshOne(p, s))
  {
    var s', ref := RefreshOne(p, s), RefOf(p, s.c);
    var h1 := s.tr + PreAllOf(p, s.c);
    AcrossPreAll(p, s, 0);
    LastOfSnoc(h1, ref, false);
    assert ref in s'.tr;
    hide LastOf, RowOf, ActTimes, RefCount, BanksTrack, PreAllOf, RefStart;
    forall b: nat | b < |s'.c.banks| ensures BankRecalls(p, s'.c.banks[b], b, s'.tr) {
      StillRecalls(p, s.c.banks[b], b, s.tr, s'.tr);
    }
    if s.c.busFree != 0 {
      var e :| e in s.tr && e.Col? && e.end == s.c.busFree;
      assert e in s'.tr;
    }
  }

  lemma RefreshKeepsBus(p: Params, s: Line)
    requires BanksTrack(p, s.c.banks, s.tr) && BusTracks(s.c, s.tr) && FawTracks(s.c, s.tr)
    ensures BusTracks(RefreshOne(p, s).c, RefreshOne(p, s).tr)
    ensures FawTracks(RefreshOne(p, s).c, RefreshOne(p, s).tr)
    ensures RefCount(RefreshOne(p, s).tr) == RefCount(s.tr) + 1
  {
    hide BanksTrack, RefOf, LastOf, ActTimes, RefCount;
    var h1, ref := s.tr + PreAllOf(p, s.c), RefOf(p, s.c);
    AcrossPreAll(p, s, 0);
    LastOfSnoc(h1, ref, true);
    LastOfSnoc(h1, ref, false);
    CountsSnoc(h1, ref);
  }

  lemma Successor(n: int, d: int)
    ensures n * d + d == (n + 1) * d
  {
  }

  /* ---- Every refresh due by a time ---- */

  /** One at a time: the loop without its shortcut. */
  function RefreshAll(p: Params, s: Line, t: int): Line
    requires p.tREFI > 0
    decreases if s.c.nextRefresh <= t then t - s.c.nextRefresh + 1 else 0
  {
    if s.c.nextRefresh <= t then RefreshAll(p, RefreshOne(p, s), t) else s
  }

  lemma OneThenAll(p: Params, s: Line, t: int)
    requires p.tREFI > 0 && s.c.nextRefresh <= t
    ensures RefreshAll(p, RefreshOne(p, s), t) == RefreshAll(p, s, t)
  {
  }

  /** `refresh(t)` as callers see it: nothing when refresh is disabled. */
  function RefreshTo(p: Params, s: Line, t: int): Line {
    if p.tREFI <= 0 then s else RefreshAll(p, s, t)
  }

  lemma {:induction false} RefreshToSound(p: Params, s: Line, t: int)
    requires Sound(p, s) && Shaped(p, s.c)
    ensures Sound(p, RefreshTo(p, s, t)) && Shaped(p, RefreshTo(p, s, t).c)
    ensures p.tREFI > 0 ==> RefreshTo(p, s, t).c.nextRefresh > t
    ensures p.tREFI > 0 ==> RefreshTo(p, s, t).c.nextRefresh >= s.c.nextRefresh
    decreases if s.c.nextRefresh <= t then t - s.c.nextRefresh + 1 else 0
  {
    if p.tREFI > 0 && s.c.nextRefresh <= t {
      RefreshSound(p, s);
      RefreshToSound(p, RefreshOne(p, s), t);
    }
  }

  /** Asking for t1 and then for a later t2 is asking for t2: no refresh is lost or run twice. */
  lemma {:induction false} RefreshComposes(p: Params, s: Line, t1: int, t2: int)
    requires t1 <= t2
    ensures RefreshTo(p, RefreshTo(p, s, t1), t2) == RefreshTo(p, s, t2)
    decreases if s.c.nextRefresh <= t1 then t1 - s.c.nextRefresh + 1 else 0
  {
    if p.tREFI > 0 && s.c.nextRefresh <= t1 {
      RefreshComposes(p, RefreshOne(p, s), t1, t2);
    }
  }

  /* ---- The idle fast-forward ---- */

  /** `n` refreshes one at a time. */
  ghost function Times(p: Params, s: Line, n: nat): Line {
    if n == 0 then s else RefreshOne(p, Times(p, s, n - 1))
  }

  /** The refreshes the shortcut stands for, due at `due`, `due + tREFI`, ... */
  function RefRun(p: Params, due: int, n: nat): seq<Cmd> {
    if n == 0 then []
    else var d := due + (n - 1) * p.tREFI; RefRun(p, due, n - 1) + [Ref(d, d + p.tRFC, d)]
  }

  /** What the shortcut does in one step: all banks ready after the last skipped refresh, the count advanced. */
  function Skip(p: Params, s: Line, n: nat): Line {
    if n == 0 then s
    else
      var next := s.c.nextRefresh + n * p.tREFI;
      var lastEnd := next - p.tREFI + p.tRFC;
      Line(s.c.(nextRefresh := next, banks := Readied(s.c.banks, lastEnd)),
           s.tr + RefRun(p, s.c.nextRefresh, n))
  }

  function Readied(banks: seq<Bank>, end: int): (r: seq<Bank>)
    ensures |r| == |banks| && forall i :: 0 <= i < |r| ==> r[i] == banks[i].(actOk := Max(banks[i].actOk, end))
  {
    seq(|banks|, i requires 0 <= i < |banks| => banks[i].(actOk := Max(banks[i].actOk, end)))
  }

  /** Idle: every bank closed, and banks and bus ready by the time the next refresh is due. */
  ghost predicate Idle(c: Channel) {
    && c.busFree <= c.nextRefresh
    && forall i :: 0 <= i < |c.banks| ==> c.banks[i].openRow == -1 && c.banks[i].actOk <= c.nextRefresh
  }

  /** On an idle channel, skipping n refreshes is running them. */
  lemma {:induction false} SkipIsTimes(p: Params, s: Line, n: nat)
    requires 0 <= p.tRFC <= p.tREFI && Idle(s.c)
    ensures Skip(p, s, n) == Times(p, s, n)
    ensures Idle(Times(p, s, n).c)
  {
    if n > 0 {
      SkipIsTimes(p, s, n - 1);
      SkipStep(p, s, n);
      IdleStep(p, Skip(p, s, n - 1));
    }
  }

  /** A refresh of an idle channel starts when it is due and leaves the channel idle. */
  lemma IdleStep(p: Params, s: Line)
    requires 0 <= p.tRFC <= p.tREFI && Idle(s.c)
    ensures var due := s.c.nextRefresh;
            RefreshOne(p, s) == Line(s.c.(banks := Readied(s.c.banks, due + p.tRFC), nextRefresh := due + p.tREFI),
                                     s.tr + [Ref(due, due + p.tRFC, due)])
    ensures Idle(RefreshOne(p, s).c)
  {
    StartOverQuiet(p, s.c.banks, s.c.nextRefresh);
    assert s.tr + PreAllOf(p, s.c) == s.tr;
    assert RefreshOne(p, s).c.banks == Readied(s.c.banks, s.c.nextRefresh + p.tRFC);
  }

  lemma SkipStep(p: Params, s: Line, n: nat)
    requires 0 <= p.tRFC <= p.tREFI && n > 0
    requires Idle(Skip(p, s, n - 1).c)
    ensures RefreshOne(p, Skip(p, s, n - 1)) == Skip(p, s, n)
  {
    hide Idle, RefreshOne;
    var m, due := Skip(p, s, n - 1), s.c.nextRefresh + (n - 1) * p.tREFI;
    IdleStep(p, m);
    Successor(n - 1, p.tREFI);
    assert m.c.nextRefresh == due;
    SkipFields(p, s, n);
    assert m.tr + [Ref(due, due + p.tRFC, due)] == Skip(p, s, n).tr by {
      if n == 1 { assert s.tr + [] == s.tr; }
      assert m.tr == s.tr + RefRun(p, s.c.nextRefresh, n - 1);
    }
    assert Readied(m.c.banks, due + p.tRFC) == Skip(p, s, n).c.banks;
  }

  lemma SkipFields(p: Params, s: Line, n: nat)
    requires 0 <= p.tRFC <= p.tREFI && n > 0
    ensures var due := s.c.nextRefresh + (n - 1) * p.tREFI;
            && Skip(p, s, n).tr == s.tr + RefRun(p, s.c.nextRefresh, n - 1) + [Ref(due, due + p.tRFC, due)]
            && Skip(p, s, n).c == s.c.(nextRefresh := due + p.tREFI, banks := Readied(s.c.banks, due + p.tRFC))
  {
    Successor(n - 1, p.tREFI);
  }

  /** Refreshes that fall due by `t` may be run first. */
  lemma {:induction false} TimesThenAll(p: Params, s: Line, n: nat, t: int)
    requires p.tREFI > 0 && s.c.nextRefresh + n * p.tREFI <= t + p.tREFI
    ensures RefreshAll(p, Times(p, s, n), t) == RefreshAll(p, s, t)
    ensures Times(p, s, n).c.nextRefresh == s.c.nextRefresh + n * p.tREFI
  {
    if n > 0 {
      assert n * p.tREFI == (n - 1) * p.tREFI + p.tREFI;
      TimesThenAll(p, s, n - 1, t);
    }
  }

  /**
    The shortcut as the loop takes it: after a refresh that ended at `end`, skip the n whole
    intervals that fit before `t`. For every tRFC >= 0 this does not change where the loop ends
    up; when tRFC > tREFI the guard keeps the shortcut from being taken at all.
   */
  lemma FastForwardExact(p: Params, s: Line, end: int, t: int)
    requires p.tREFI > 0 && 0 <= p.tRFC && 0 <= p.tRPab
    requires var m := RefreshOne(p, s).c; m.nextRefresh + p.tRFC <= t && end <= m.nextRefresh
    requires end == RefOf(p, s.c).end
    ensures var m := RefreshOne(p, s);
            var n := (t - p.tRFC - m.c.nextRefresh) / p.tREFI;
            && 0 <= n
            && RefreshAll(p, Skip(p, m, n), t) == RefreshAll(p, s, t)
  {
    IdleAfter(p, s);
    hide *;
    var m := RefreshOne(p, s);
    WholeIntervals(t - p.tRFC - m.c.nextRefresh, p.tREFI);
    SkipThenAll(p, s, (t - p.tRFC - m.c.nextRefresh) / p.tREFI, t);
  }

  lemma SkipThenAll(p: Params, s: Line, n: nat, t: int)
    requires 0 < p.tREFI && 0 <= p.tRFC <= p.tREFI && Idle(RefreshOne(p, s).c) && s.c.nextRefresh <= t
    requires RefreshOne(p, s).c.nextRefresh + n * p.tREFI <= t
    ensures RefreshAll(p, Skip(p, RefreshOne(p, s), n), t) == RefreshAll(p, s, t)
  {
    hide *;
    var m := RefreshOne(p, s);
    SkipIsTimes(p, m, n);
    TimesThenAll(p, m, n, t);
    OneThenAll(p, s, t);
  }

  lemma WholeIntervals(span: nat, d: int)
    requires d > 0
    ensures 0 <= span / d && span / d * d <= span
  {
    DivNonNegative(span, d);
  }

  /** A refresh that ends before the next one is due leaves the channel idle. */
  lemma IdleAfter(p: Params, s: Line)
    requires p.tREFI > 0 && 0 <= p.tRFC && 0 <= p.tRPab && RefOf(p, s.c).end <= RefreshOne(p, s).c.nextRefresh
    ensures Idle(RefreshOne(p, s).c) && s.c.nextRefresh <= RefreshOne(p, s).c.nextRefresh
    ensures p.tRFC <= p.tREFI
  {
    BanksReady(p, s.c);
  }

  lemma {:induction false} TimesSound(p: Params, s: Line, n: nat)
    requires Sound(p, s) && Shaped(p, s.c)
    ensures Sound(p, Times(p, s, n)) && Shaped(p, Times(p, s, n).c)
    ensures RefCount(Times(p, s, n).tr) == RefCount(s.tr) + n
  {
    hide Sound, RefreshOne, Shaped, RefCount;
    if n > 0 {
      var m := Times(p, s, n - 1);
      TimesSound(p, s, n - 1);
      RefreshSound(p, m);
      assert Times(p, s, n) == RefreshOne(p, m);
    }
  }

  /** The shortcut after a refresh that ended at `end`: legal, and on the way to the same line. */
  lemma SkipSound(p: Params, s: Line, t: int, n: nat)
    requires Sound(p, s) && Shaped(p, s.c) && p.tREFI > 0
    requires var m := RefreshOne(p, s).c;
             && m.nextRefresh + p.tRFC <= t && RefOf(p, s.c).end <= m.nextRefresh
             && n == (t - p.tRFC - m.nextRefresh) / p.tREFI
    ensures var m := Skip(p, RefreshOne(p, s), n);
            && Sound(p, m) && Shaped(p, m.c)
            && RefreshAll(p, m, t) == RefreshAll(p, s, t)
            && RefCount(m.tr) == RefCount(s.tr) + 1 + n
            && s.c.nextRefresh < m.c.nextRefresh
  {
    hide *;
    var m := RefreshOne(p, s);
    SoundTimings(p, s);
    FastForwardExact(p, s, RefOf(p, s.c).end, t);
    RefreshSound(p, s);
    IdleAfter(p, s);
    OneDue(p, s);
    SkipDue(p, m, n);
    SkipIsTimes(p, m, n);
    TimesSound(p, m, n);
    MulMono(0, n, p.tREFI);
  }

  lemma SoundTimings(p: Params, s: Line)
    requires Sound(p, s)
    ensures 0 <= p.tRFC && 0 <= p.tRPab
  {
  }

  lemma OneDue(p: Params, s: Line)
    ensures RefreshOne(p, s).c.nextRefresh == s.c.nextRefresh + p.tREFI
  {
  }

  lemma SkipDue(p: Params, s: Line, n: nat)
    ensures Skip(p, s, n).c.nextRefresh == s.c.nextRefresh + n * p.tREFI
  {
  }

}
