/**
  `burst` in the timing engine (`targets/hetero/dram_core.hpp`): plan, let every refresh the
  burst would run into go first, plan again, commit. The re-planning loop ends if and only if
  a refresh and a row opening fit in one refresh interval.
 */
module DramBurst {
  import opened Arith
  import opened DramDevice
  import opened DramMapping
  import opened DramChannel
  import opened DramRefresh

  ghost predicate Ready(p: Params, c: Channel, k: Coord) {
    p.TimingsOk() && Shaped(p, c) && InRange(p, k) && p.NumBanks() > 0
  }

  /** A refresh falls due before the planned column command: the loop goes round. */
  predicate RunsIntoRefresh(p: Params, c: Channel, pl: Plan) {
    p.tREFI > 0 && pl.col >= c.nextRefresh
  }

  /** How far the planned column command lies past the next refresh. */
  ghost function Gap(p: Params, c: Channel, k: Coord, t: int, w: bool): int
    requires Ready(p, c, k)
  {
    PlanOf(p, c, k, t, w).col - c.nextRefresh
  }

  /** After a refresh: all banks closed and ready together, the bus idle by then. */
  ghost predicate Settled(c: Channel) {
    && |c.banks| > 0
    && c.busFree <= c.banks[0].actOk
    && forall i :: 0 <= i < |c.banks| ==> c.banks[i].openRow == -1 && c.banks[i].actOk == c.banks[0].actOk
  }

  /** The part of a plan no refresh changes: the command times if the banks were ready at `t`. */
  ghost function Floor(p: Params, c: Channel, k: Coord, t: int, w: bool): int
    requires Ready(p, c, k)
  {
    BankInRange(p, k);
    EarliestCol(p, c, k, EarliestAct(p, c, k, c.banks[BankOf(p, k)].(actOk := t), t) + p.tRCD, w)
  }

  /** On a settled channel a burst waits for the banks or for the rest, whichever is later. */
  lemma SettledPlan(p: Params, c: Channel, k: Coord, t: int, w: bool)
    requires Ready(p, c, k) && Settled(c)
    ensures PlanOf(p, c, k, t, w).col == Max(c.banks[0].actOk + p.tRCD, Floor(p, c, k, t, w))
  {
    BankInRange(p, k);
    var b, e := c.banks[BankOf(p, k)], c.banks[0].actOk;
    assert b.openRow == -1 && b.actOk == e;
    MissPlan(p, c, k, t, w);
    ActWaits(p, c, k, b, t);
    hide PlanOf, EarliestAct, EarliestCol, Settled;
    ColWaits(p, c, k, e, EarliestAct(p, c, k, b.(actOk := t), t), w);
  }

  /** The plan on a precharged bank. */
  lemma MissPlan(p: Params, c: Channel, k: Coord, t: int, w: bool)
    requires Ready(p, c, k) && BankOf(p, k) < |c.banks| && c.banks[BankOf(p, k)].openRow < 0
    ensures PlanOf(p, c, k, t, w).col == EarliestCol(p, c, k, EarliestAct(p, c, k, c.banks[BankOf(p, k)], t) + p.tRCD,
                                                     w)
  {
    hide EarliestAct, EarliestCol;
  }

  lemma ActWaits(p: Params, c: Channel, k: Coord, b: Bank, t: int)
    requires Ready(p, c, k)
    ensures EarliestAct(p, c, k, b, t) == Max(b.actOk, EarliestAct(p, c, k, b.(actOk := t), t))
  {
  }

  /** A column command waits for the banks and for the rest, the bus being free by then. */
  lemma ColWaits(p: Params, c: Channel, k: Coord, e: int, act: int, w: bool)
    requires p.TimingsOk() && c.busFree <= e
    ensures EarliestCol(p, c, k, Max(e, act) + p.tRCD, w) == Max(e + p.tRCD, EarliestCol(p, c, k, act + p.tRCD, w))
  {
  }

  /** One refresh settles the channel; its end is when the banks are ready. */
  lemma RefreshSettles(p: Params, s: Line)
    requires p.TimingsOk() && |s.c.banks| > 0
    ensures Settled(RefreshOne(p, s).c)
    ensures RefreshOne(p, s).c.banks[0].actOk == RefOf(p, s.c).end >= s.c.nextRefresh + p.tRFC
    ensures Settled(s.c) ==> RefOf(p, s.c).end == Max(s.c.nextRefresh, s.c.banks[0].actOk) + p.tRFC
  {
    BanksReady(p, s.c);
    if Settled(s.c) {
      SettledStart(p, s.c.banks, Max(s.c.nextRefresh, s.c.busFree), s.c.banks[0].actOk);
    }
  }

  lemma {:induction false} SettledStart(p: Params, banks: seq<Bank>, s0: int, e: int)
    requires forall i :: 0 <= i < |banks| ==> banks[i].openRow == -1 && banks[i].actOk == e
    ensures StartOver(p, banks, s0) == if banks == [] then s0 else Max(s0, e)
  {
    if banks != [] {
      SettledStart(p, banks[..|banks| - 1], s0, e);
    }
  }

  lemma RefreshKeepsFloor(p: Params, s: Line, k: Coord, t: int, w: bool)
    requires Ready(p, s.c, k)
    ensures Ready(p, RefreshOne(p, s).c, k)
    ensures Floor(p, RefreshOne(p, s).c, k, t, w) == Floor(p, s.c, k, t, w)
  {
    BankInRange(p, k);
  }

  /** One refresh on a settled channel brings the plan closer to the refresh after it. */
  lemma GapStep(p: Params, s: Line, k: Coord, t: int, w: bool)
    requires Ready(p, s.c, k) && Settled(s.c)
    requires p.tRFC + p.tRCD < p.tREFI
    ensures Ready(p, RefreshOne(p, s).c, k)
    ensures Gap(p, RefreshOne(p, s).c, k, t, w) < Max(Gap(p, s.c, k, t, w), 0)
  {
    RefreshKeepsFloor(p, s, k, t, w);
    RefreshSettles(p, s);
    SettledPlan(p, s.c, k, t, w);
    SettledPlan(p, RefreshOne(p, s).c, k, t, w);
  }

  /** The gap shrinks over all the refreshes one turn of the loop runs. */
  lemma {:induction false} GapShrinks(p: Params, s: Line, k: Coord, t: int, w: bool, upTo: int)
    requires Ready(p, s.c, k) && Settled(s.c)
    requires 0 <= p.tRFC + p.tRCD < p.tREFI
    ensures var s' := RefreshAll(p, s, upTo);
            && Ready(p, s'.c, k) && Settled(s'.c)
            && Gap(p, s'.c, k, t, w) <= Max(Gap(p, s.c, k, t, w), 0)
            && (s.c.nextRefresh <= upTo ==> Gap(p, s'.c, k, t, w) < Max(Gap(p, s.c, k, t, w), 0))
    decreases if s.c.nextRefresh <= upTo then upTo - s.c.nextRefresh + 1 else 0
  {
    if s.c.nextRefresh <= upTo {
      GapStep(p, s, k, t, w);
      RefreshSettles(p, s);
      GapShrinks(p, RefreshOne(p, s), k, t, w, upTo);
      if Gap(p, RefreshOne(p, s).c, k, t, w) < 0 && RefreshOne(p, s).c.nextRefresh > upTo {
        assert RefreshAll(p, RefreshOne(p, s), upTo) == RefreshOne(p, s);
      }
    }
  }

  /** Refreshing up to any time settles the channel as soon as one refresh was due. */
  lemma TurnSettles(p: Params, s: Line, k: Coord, t: int, w: bool, upTo: int)
    requires Ready(p, s.c, k) && p.tREFI > 0 && s.c.nextRefresh <= upTo
    requires p.tRFC + p.tRCD < p.tREFI
    ensures var c' := RefreshAll(p, s, upTo).c;
            && Settled(c') && Ready(p, c', k)
            && (Settled(s.c) ==> Gap(p, c', k, t, w) < Max(Gap(p, s.c, k, t, w), 0))
  {
    RefreshSettles(p, s);
    RefreshKeepsFloor(p, s, k, t, w);
    GapShrinks(p, RefreshOne(p, s), k, t, w, upTo);
    if Settled(s.c) { GapShrinks(p, s, k, t, w, upTo); }
  }

  /** A refresh and a row opening fit in a refresh interval. */
  predicate RefreshFits(p: Params) { p.tREFI > 0 ==> p.tRFC + p.tRCD < p.tREFI }

  /** The loop of `burst`: refresh up to the planned column command and plan again, until no refresh is in the way. */
  function Replan(p: Params, s: Line, k: Coord, t: int, w: bool): (r: Line)
    requires Ready(p, s.c, k) && RefreshFits(p)
    ensures Ready(p, r.c, k) && !RunsIntoRefresh(p, r.c, PlanOf(p, r.c, k, t, w))
    decreases if Settled(s.c) then 0 else 1, Max(Gap(p, s.c, k, t, w) + 1, 0)
  {
    var pl := PlanOf(p, s.c, k, t, w);
    if RunsIntoRefresh(p, s.c, pl) then
      TurnSettles(p, s, k, t, w, pl.col);
      Replan(p, RefreshAll(p, s, pl.col), k, t, w)
    else s
  }

  /** `n` turns of the loop body, whatever its guard says. */
  ghost function Turns(p: Params, s: Line, k: Coord, t: int, w: bool, n: nat): (r: Line)
    requires Ready(p, s.c, k) && p.tREFI > 0
    ensures Ready(p, r.c, k)
  {
    if n == 0 then s
    else
      var m := Turns(p, s, k, t, w, n - 1);
      var upTo := PlanOf(p, m.c, k, t, w).col;
      RefreshAllShape(p, m, k, upTo);
      RefreshAll(p, m, upTo)
  }

  lemma {:induction false} RefreshAllShape(p: Params, s: Line, k: Coord, upTo: int)
    requires Ready(p, s.c, k) && p.tREFI > 0
    ensures Ready(p, RefreshAll(p, s, upTo).c, k)
    decreases if s.c.nextRefresh <= upTo then upTo - s.c.nextRefresh + 1 else 0
  {
    if s.c.nextRefresh <= upTo {
      RefreshAllShape(p, RefreshOne(p, s), k, upTo);
    }
  }

  /** When they do not fit, a turn that ran a refresh leaves the next one in the way again. */
  lemma {:induction false} TurnStaysBlocked(p: Params, s: Line, k: Coord, t: int, w: bool, upTo: int)
    requires Ready(p, s.c, k) && p.tREFI > 0 && s.c.nextRefresh <= upTo
    requires p.tREFI <= p.tRFC + p.tRCD
    ensures var s' := RefreshAll(p, s, upTo);
            Ready(p, s'.c, k) && RunsIntoRefresh(p, s'.c, PlanOf(p, s'.c, k, t, w))
    decreases upTo - s.c.nextRefresh
  {
    RefreshSettles(p, s);
    RefreshKeepsFloor(p, s, k, t, w);
    SettledPlan(p, RefreshOne(p, s).c, k, t, w);
    if RefreshOne(p, s).c.nextRefresh <= upTo {
      TurnStaysBlocked(p, RefreshOne(p, s), k, t, w, upTo);
    }
  }

  /**
    The bound is exact. Once a burst runs into a refresh, the loop leaves after some number of
    turns if and only if tRFC + tRCD < tREFI; otherwise it goes round for ever.
   */
  lemma ReplanEndsIff(p: Params, s: Line, k: Coord, t: int, w: bool)
    requires Ready(p, s.c, k) && RunsIntoRefresh(p, s.c, PlanOf(p, s.c, k, t, w))
    ensures p.tRFC + p.tRCD < p.tREFI <==>
            exists n :: !RunsIntoRefresh(p, Turns(p, s, k, t, w, n).c, PlanOf(p, Turns(p, s, k, t, w, n).c, k, t, w))
  {
    if p.tRFC + p.tRCD < p.tREFI {
      var n := ReplanIsTurns(p, s, k, t, w);
      assert !RunsIntoRefresh(p, Turns(p, s, k, t, w, n).c, PlanOf(p, Turns(p, s, k, t, w, n).c, k, t, w));
    } else {
      forall n: nat ensures RunsIntoRefresh(p, Turns(p, s, k, t, w, n).c,
                                            PlanOf(p, Turns(p, s, k, t, w, n).c, k, t, w)) {
        StaysBlocked(p, s, k, t, w, n);
      }
    }
  }

  lemma {:induction false} StaysBlocked(p: Params, s: Line, k: Coord, t: int, w: bool, n: nat)
    requires Ready(p, s.c, k) && RunsIntoRefresh(p, s.c, PlanOf(p, s.c, k, t, w))
    requires p.tREFI <= p.tRFC + p.tRCD
    ensures RunsIntoRefresh(p, Turns(p, s, k, t, w, n).c, PlanOf(p, Turns(p, s, k, t, w, n).c, k, t, w))
  {
    if n > 0 {
      StaysBlocked(p, s, k, t, w, n - 1);
      var m := Turns(p, s, k, t, w, n - 1);
      TurnStaysBlocked(p, m, k, t, w, PlanOf(p, m.c, k, t, w).col);
    }
  }

  /** A burst that never ends: the first one on a channel, arriving just before the first refresh is due. */
  lemma NeverEnds(p: Params, k: Coord, w: bool, n: nat)
    requires Ready(p, FreshChannel(p), k) && 0 < p.tREFI <= p.tRFC + p.tRCD && 0 < p.tRCD
    ensures var s, t := Line(FreshChannel(p), []), p.tREFI - 1;
            && RefreshTo(p, s, t) == s
            && RunsIntoRefresh(p, Turns(p, s, k, t, w, n).c, PlanOf(p, Turns(p, s, k, t, w, n).c, k, t, w))
  {
    var s, t := Line(FreshChannel(p), []), p.tREFI - 1;
    BankInRange(p, k);
    MissPlan(p, s.c, k, t, w);
    EarliestBounds(p, s.c, k, s.c.banks[BankOf(p, k)], t, w);
    StaysBlocked(p, s, k, t, w, n);
  }

  /** `Replan` takes some number of turns. */
  lemma {:induction false} ReplanIsTurns(p: Params, s: Line, k: Coord, t: int, w: bool) returns (n: nat)
    requires Ready(p, s.c, k) && p.tREFI > 0 && RefreshFits(p)
    ensures Turns(p, s, k, t, w, n) == Replan(p, s, k, t, w)
    decreases if Settled(s.c) then 0 else 1, Max(Gap(p, s.c, k, t, w) + 1, 0)
  {
    hide Turns, Replan, RefreshAll, PlanOf, Settled;
    ReplanStep(p, s, k, t, w);
    if RunsIntoRefresh(p, s.c, PlanOf(p, s.c, k, t, w)) {
      var upTo := PlanOf(p, s.c, k, t, w).col;
      TurnSettles(p, s, k, t, w, upTo);
      n := ReplanIsTurns(p, RefreshAll(p, s, upTo), k, t, w);
      FirstTurn(p, s, k, t, w, n);
      n := n + 1;
    } else {
      n := 0;
      NoTurn(p, s, k, t, w);
    }
  }

  lemma NoTurn(p: Params, s: Line, k: Coord, t: int, w: bool)
    requires Ready(p, s.c, k) && p.tREFI > 0
    ensures Turns(p, s, k, t, w, 0) == s
  {
  }

  /** A turn and then n turns. */
  lemma {:induction false} FirstTurn(p: Params, s: Line, k: Coord, t: int, w: bool, n: nat)
    requires Ready(p, s.c, k) && p.tREFI > 0
    ensures var s' := RefreshAll(p, s, PlanOf(p, s.c, k, t, w).col);
            Ready(p, s'.c, k) && Turns(p, s', k, t, w, n) == Turns(p, s, k, t, w, n + 1)
  {
    RefreshAllShape(p, s, k, PlanOf(p, s.c, k, t, w).col);
    NoTurn(p, s, k, t, w);
    TurnsStep(p, s, k, t, w, n);
    hide PlanOf, RefreshAll, Ready;
    if n > 0 { FirstTurn(p, s, k, t, w, n - 1); }
  }

  lemma TurnsStep(p: Params, s: Line, k: Coord, t: int, w: bool, n: nat)
    requires Ready(p, s.c, k) && p.tREFI > 0
    ensures var m := Turns(p, s, k, t, w, n);
            Turns(p, s, k, t, w, n + 1) == RefreshAll(p, m, PlanOf(p, m.c, k, t, w).col)
  {
  }

  lemma ReplanStep(p: Params, s: Line, k: Coord, t: int, w: bool)
    requires Ready(p, s.c, k) && p.tREFI > 0 && RefreshFits(p)
    ensures var pl := PlanOf(p, s.c, k, t, w);
            if RunsIntoRefresh(p, s.c, pl)
            then Ready(p, RefreshAll(p, s, pl.col).c, k) &&
                 Replan(p, s, k, t, w) == Replan(p, RefreshAll(p, s, pl.col), k, t, w)
            else Replan(p, s, k, t, w) == s
  {
    var pl := PlanOf(p, s.c, k, t, w);
    if RunsIntoRefresh(p, s.c, pl) { TurnSettles(p, s, k, t, w, pl.col); }
    hide Settled, PlanOf, RefreshAll, Ready;
  }

  /* ---- A whole burst ---- */

  /** The line just before the burst is committed: refreshed up to its arrival, then re-planned. */
  function BeforeBurst(p: Params, s: Line, k: Coord, arrive: int, w: bool): (r: Line)
    requires Ready(p, s.c, k) && RefreshFits(p)
    ensures Ready(p, r.c, k)
  {
    var t := Max(arrive, s.c.order);
    var s1 := RefreshTo(p, s, t);
    assert Ready(p, s1.c, k) by { if p.tREFI > 0 { RefreshAllShape(p, s, k, t); } }
    Replan(p, s1, k, t, w)
  }

  function BurstPlan(p: Params, s: Line, k: Coord, arrive: int, w: bool): Plan
    requires Ready(p, s.c, k) && RefreshFits(p)
  {
    PlanOf(p, BeforeBurst(p, s, k, arrive, w).c, k, Max(arrive, s.c.order), w)
  }

  function Burst(p: Params, s: Line, k: Coord, arrive: int, w: bool): Line
    requires Ready(p, s.c, k) && RefreshFits(p)
  {
    Commit(p, BeforeBurst(p, s, k, arrive, w), BurstPlan(p, s, k, arrive, w), w)
  }

  lemma {:induction false} TurnsSound(p: Params, s: Line, k: Coord, t: int, w: bool, n: nat)
    requires Ready(p, s.c, k) && p.tREFI > 0 && Sound(p, s)
    ensures Sound(p, Turns(p, s, k, t, w, n))
  {
    if n > 0 {
      TurnsSound(p, s, k, t, w, n - 1);
      var m := Turns(p, s, k, t, w, n - 1);
      RefreshToSound(p, m, PlanOf(p, m.c, k, t, w).col);
    }
  }

  lemma ReplanSound(p: Params, s: Line, k: Coord, t: int, w: bool)
    requires Ready(p, s.c, k) && RefreshFits(p) && Sound(p, s)
    ensures Sound(p, Replan(p, s, k, t, w))
  {
    if p.tREFI > 0 {
      var n := ReplanIsTurns(p, s, k, t, w);
      TurnsSound(p, s, k, t, w, n);
    }
  }

  /**
    A burst keeps the channel's whole command history legal, does not start before it arrives or
    before the burst it follows, and issues its column command before the next refresh is due.
   */
  lemma BurstSound(p: Params, s: Line, k: Coord, arrive: int, w: bool)
    requires Ready(p, s.c, k) && RefreshFits(p) && Sound(p, s)
    ensures var s', pl := Burst(p, s, k, arrive, w), BurstPlan(p, s, k, arrive, w);
            && Sound(p, s') && Shaped(p, s'.c)
            && arrive <= pl.col && s.c.order <= pl.col
            && (p.tREFI > 0 ==> pl.col < s'.c.nextRefresh)
  {
    var t := Max(arrive, s.c.order);
    RefreshToSound(p, s, t);
    var s1 := RefreshTo(p, s, t);
    ReplanSound(p, s1, k, t, w);
    CommitSound(p, Replan(p, s1, k, t, w), k, t, w);
    PlanFits(p, Replan(p, s1, k, t, w).c, k, t, w);
  }

  /** One turn of the loop, and its end, as the method takes them. */
  lemma ReplanTurn(p: Params, s: Line, k: Coord, t: int, w: bool)
    requires Ready(p, s.c, k) && RefreshFits(p)
    requires RunsIntoRefresh(p, s.c, PlanOf(p, s.c, k, t, w))
    ensures var s' := RefreshTo(p, s, PlanOf(p, s.c, k, t, w).col);
            && Ready(p, s'.c, k) && Settled(s'.c)
            && Replan(p, s', k, t, w) == Replan(p, s, k, t, w)
            && (Settled(s.c) ==> Max(Gap(p, s'.c, k, t, w) + 1, 0) < Max(Gap(p, s.c, k, t, w) + 1, 0))
  {
    TurnSettles(p, s, k, t, w, PlanOf(p, s.c, k, t, w).col);
  }

  lemma ReplanDone(p: Params, s: Line, k: Coord, t: int, w: bool)
    requires Ready(p, s.c, k) && RefreshFits(p)
    requires !RunsIntoRefresh(p, s.c, PlanOf(p, s.c, k, t, w))
    ensures Replan(p, s, k, t, w) == s
  {
  }

  lemma BeforeBurstIs(p: Params, s: Line, k: Coord, arrive: int, w: bool)
    requires Ready(p, s.c, k) && RefreshFits(p)
    ensures var t := Max(arrive, s.c.order);
            && Ready(p, RefreshTo(p, s, t).c, k)
            && BeforeBurst(p, s, k, arrive, w) == Replan(p, RefreshTo(p, s, t), k, t, w)
  {
    if p.tREFI > 0 { RefreshAllShape(p, s, k, Max(arrive, s.c.order)); }
  }

  /** A burst's history ends with its own column command. */
  lemma BurstDelivers(p: Params, s: Line, k: Coord, arrive: int, w: bool)
    requires Ready(p, s.c, k) && RefreshFits(p)
    ensures var tr, pl := Burst(p, s, k, arrive, w).tr, BurstPlan(p, s, k, arrive, w);
            && tr != [] && tr[|tr| - 1] == Col(pl.col, k.bg, BankOf(p, k), k.row, w, pl.end)
            && pl.end == pl.col + Latency(p, w) + p.BurstPs()
            && arrive <= pl.col && arrive <= pl.end
  {
    hide BeforeBurst, PlanOf;
    PlanShape(p, BeforeBurst(p, s, k, arrive, w).c, k, Max(arrive, s.c.order), w);
  }

  lemma PlanShape(p: Params, c: Channel, k: Coord, t: int, w: bool)
    requires Ready(p, c, k)
    ensures var pl := PlanOf(p, c, k, t, w);
            && pl.end == pl.col + Latency(p, w) + p.BurstPs() && t <= pl.col <= pl.end
  {
    hide Params.BurstPs, BankOf, EarliestCol, EarliestAct;
    BankInRange(p, k);
    var b := c.banks[BankOf(p, k)];
    EarliestBounds(p, c, k, b, t, w);
    EarliestBounds(p, c, k, b, Max(t, Max(b.act + p.tRAS, b.preOk)) + p.tRP, w);
    EarliestBounds(p, c, k, b, Max(t, b.act + p.tRCD), w);
    EarliestBounds(p, c, k, b, EarliestAct(p, c, k, b, t) + p.tRCD, w);
    EarliestBounds(p, c, k, b, EarliestAct(p, c, k, b, Max(t, Max(b.act + p.tRAS, b.preOk)) + p.tRP) + p.tRCD, w);
  }

  lemma EarliestBounds(p: Params, c: Channel, k: Coord, b: Bank, from: int, w: bool)
    requires Ready(p, c, k)
    ensures from <= EarliestAct(p, c, k, b, from) && from <= EarliestCol(p, c, k, from, w)
  {
  }

  /** A burst that no refresh stands in the way of. */
  lemma UndisturbedBurst(p: Params, s: Line, k: Coord, arrive: int, w: bool)
    requires Ready(p, s.c, k) && RefreshFits(p)
    requires var pl := PlanOf(p, s.c, k, Max(arrive, s.c.order), w);
             p.tREFI > 0 ==> Max(arrive, s.c.order) <= pl.col < s.c.nextRefresh
    ensures BurstPlan(p, s, k, arrive, w) == PlanOf(p, s.c, k, Max(arrive, s.c.order), w)
    ensures Burst(p, s, k, arrive, w) == Commit(p, s, PlanOf(p, s.c, k, Max(arrive, s.c.order), w), w)
  {
    var t := Max(arrive, s.c.order);
    BeforeBurstIs(p, s, k, arrive, w);
    hide PlanOf;
    assert RefreshTo(p, s, t) == s;
    ReplanDone(p, s, k, t, w);
  }
}
