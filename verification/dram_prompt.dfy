/**
  The timing engine (`targets/hetero/dram_core.hpp`) waits for nothing the device does not ask for. The
  reference is the device rule alone: of all ways to send a burst's commands that the device allows after
  what it has been sent, the planned one is the earliest, command by command; so is a refresh that is
  due; and no refresh goes first that did not have to.
 */
module DramPrompt {
  import opened Arith
  import opened DramDevice
  import opened DramMapping
  import opened DramChannel
  import opened DramRefresh
  import opened DramBurst

  /** Timings do not reach from "never" to time 0. */
  ghost predicate NeverIsFar(p: Params) { FarForReads(p) && NEVER + p.tRTW <= 0 }

  ghost predicate FarForReads(p: Params) { NEVER + p.tRC <= 0 && NEVER + p.tCCD_S <= 0 }

  /** Times for the commands of a burst: PRE and ACT count only where the device needs them. */
  datatype CommandTimes = CommandTimes(pre: int, act: int, col: int)

  /** What the device needs for a column command on a row, after `h`: nothing else, an ACT, or a PRE and an ACT. */
  ghost function Needs(p: Params, h: seq<Cmd>, k: Coord, w: bool, at: CommandTimes): seq<Cmd>
    requires p.mtps > 0
  {
    var bank := BankOf(p, k);
    var col := [Col(at.col, k.bg, bank, k.row, w, at.col + Latency(p, w) + p.BurstPs())];
    match RowOf(h, bank)
    case Closed => [Act(at.act, k.bg, bank, k.row)] + col
    case Open(row, _) => if row == k.row then col
                         else [Pre(at.pre, bank), Act(at.act, k.bg, bank, k.row)] + col
  }

  /** The device allows those commands at those times, none of them before `t`. */
  ghost predicate Possible(p: Params, h: seq<Cmd>, k: Coord, t: int, w: bool, at: CommandTimes)
    requires p.mtps > 0
  {
    && t <= at.col && (!IsHit(RowOf(h, BankOf(p, k)), k) ==> t <= at.act)
    && (IsConflict(RowOf(h, BankOf(p, k)), k) ==> t <= at.pre)
    && Legal(p, h + Needs(p, h, k, w, at))
  }

  predicate IsHit(r: RowState, k: Coord) { r.Open? && r.row == k.row }

  predicate IsConflict(r: RowState, k: Coord) { r.Open? && r.row != k.row }

  /** No way to send them has a command sooner. */
  ghost predicate Earliest(p: Params, h: seq<Cmd>, k: Coord, t: int, w: bool, at: CommandTimes)
    requires p.mtps > 0
  {
    forall x :: Possible(p, h, k, t, w, x) ==>
      && at.col <= x.col
      && (!IsHit(RowOf(h, BankOf(p, k)), k) ==> at.act <= x.act)
      && (IsConflict(RowOf(h, BankOf(p, k)), k) ==> at.pre <= x.pre)
  }

  /* ---- The plan ---- */

  function TimesOf(pl: Plan): CommandTimes { CommandTimes(pl.pre, pl.act, pl.col) }

  /** The same plan at other times. */
  function At(p: Params, pl: Plan, w: bool, x: CommandTimes): Plan
    requires p.mtps > 0
  {
    pl.(pre := x.pre, act := x.act, col := x.col, end := x.col + Latency(p, w) + p.BurstPs())
  }

  /** What a plan sends is what the device needs. */
  lemma SendsNeeds(p: Params, s: Line, k: Coord, t: int, w: bool, x: CommandTimes)
    requires Sound(p, s) && Shaped(p, s.c) && InRange(p, k)
    ensures var pl := PlanOf(p, s.c, k, t, w);
            && CommandsOf(At(p, pl, w, x), w) == Needs(p, s.tr, k, w, x)
            && CommandsOf(pl, w) == Needs(p, s.tr, k, w, TimesOf(pl))
            && (pl.kind.Hit? <==> IsHit(RowOf(s.tr, pl.bank), k))
            && (pl.kind.Conflict? <==> IsConflict(RowOf(s.tr, pl.bank), k))
  {
    hide PlanOf, Legal, Recalls, Needs, CommandsOf, RowOf, BankOf, Params.BurstPs;
    PlanFields(p, s.c, k, t, w);
    var pl := PlanOf(p, s.c, k, t, w);
    assert BankTracks(p, s.c.banks[pl.bank], pl.bank, s.tr);
    SendsThose(p, s.tr, At(p, pl, w, x), w);
    SendsThose(p, s.tr, At(p, pl, w, TimesOf(pl)), w);
  }

  lemma SendsThose(p: Params, h: seq<Cmd>, pl: Plan, w: bool)
    requires p.mtps > 0 && pl.bank == BankOf(p, pl.k) && pl.end == pl.col + Latency(p, w) + p.BurstPs()
    requires pl.kind.Hit? <==> IsHit(RowOf(h, pl.bank), pl.k)
    requires pl.kind.Conflict? <==> IsConflict(RowOf(h, pl.bank), pl.k)
    ensures CommandsOf(pl, w) == Needs(p, h, pl.k, w, TimesOf(pl))
  {
    hide RowOf, BankOf, Params.BurstPs;
  }

  lemma PreNotBefore(p: Params, s: Line, bank: nat, a: int)
    requires Sound(p, s) && bank < |s.c.banks| && s.c.banks[bank].openRow >= 0 && 0 <= a
    requires Allowed(p, s.tr, Pre(a, bank))
    ensures s.c.banks[bank].act + p.tRAS <= a && s.c.banks[bank].preOk <= a
  {
    var b := s.c.banks[bank];
    assert BankTracks(p, b, bank, s.tr) && BankRecalls(p, b, bank, s.tr);
    if b.preOk != 0 {
      var e :| e in s.tr && e.Col? && e.bank == bank && Recovery(p, e) == b.preOk;
      assert Spaced(p, e, Pre(a, bank));
    }
  }

  /** An ACT the device allows after `h`, a history the state knows but for a precharge of its own bank. */
  lemma ActNotBefore(p: Params, s: Line, k: Coord, b: Bank, pl: Plan, from: int, at: int)
    requires Sound(p, s) && Shaped(p, s.c) && InRange(p, k) && NeverIsFar(p) && 0 <= at && from <= at
    requires pl.bank == BankOf(p, k) < |s.c.banks| && b == s.c.banks[pl.bank]
    requires Allowed(p, s.tr + PreOf(pl), Act(at, k.bg, pl.bank, k.row))
    ensures EarliestAct(p, s.c, k, b, from) <= at
  {
    var h, act := s.tr + PreOf(pl), Act(at, k.bg, pl.bank, k.row);
    assert BankRecalls(p, b, pl.bank, s.tr);
    if b.actOk != 0 {
      var e :| e in s.tr && e.Ref? && e.end == b.actOk;
      assert e in h && Spaced(p, e, act);
    }
    if b.act != NEVER {
      var e :| e in s.tr && e.Act? && e.bank == pl.bank && e.at == b.act;
      assert e in h && Spaced(p, e, act);
    }
    AcrossPre(s.tr, pl, pl.bank);
    NeighbourAct(p, s, h, k, pl.bank, at);
  }

  /** What the rule about neighbours asks of an ACT, in the state's words. */
  lemma NeighbourAct(p: Params, s: Line, h: seq<Cmd>, k: Coord, bank: nat, at: int)
    requires Sound(p, s) && Shaped(p, s.c) && InRange(p, k)
    requires LastOf(h, true) == LastOf(s.tr, true) && ActTimes(h) == ActTimes(s.tr)
    requires NeighbourRule(p, h, Act(at, k.bg, bank, k.row))
    ensures s.c.lastActRank == k.ra ==> s.c.lastAct + (if s.c.lastActBg == k.bg then p.tRRD_L else p.tRRD_S) <= at
    ensures |s.c.faw[k.ra]| == 4 ==> s.c.faw[k.ra][0] + p.tFAW <= at
  {
    hide Legal, Recalls, BanksTrack;
    assert k.ra == 0;
  }

  /** A column command the device allows. */
  lemma ColNotBefore(p: Params, s: Line, h: seq<Cmd>, k: Coord, bank: nat, from: int, w: bool, at: int, end: int)
    requires Sound(p, s) && Shaped(p, s.c) && InRange(p, k) && NeverIsFar(p) && 0 <= at && from <= at
    requires s.tr <= h && LastOf(h, false) == LastOf(s.tr, false)
    requires Allowed(p, h, Col(at, k.bg, bank, k.row, w, end))
    ensures EarliestCol(p, s.c, k, from, w) <= at
  {
    var col := Col(at, k.bg, bank, k.row, w, end);
    assert k.ra == 0;
    if s.c.busFree != 0 {
      var e :| e in s.tr && e.Col? && e.end == s.c.busFree;
      assert e in h && Spaced(p, e, col);
    }
    assert NeighbourRule(p, h, col);
    hide Legal, BanksTrack, RowRule, Shape;
  }

  /** The planned burst is possible, and nothing sooner is. */
  lemma PlanIsEarliest(p: Params, s: Line, k: Coord, t: int, w: bool)
    requires Sound(p, s) && Shaped(p, s.c) && InRange(p, k) && NeverIsFar(p) && 0 <= t
    ensures var pl := PlanOf(p, s.c, k, t, w);
            && pl.end == pl.col + Latency(p, w) + p.BurstPs()
            && Possible(p, s.tr, k, t, w, TimesOf(pl)) && Earliest(p, s.tr, k, t, w, TimesOf(pl))
  {
    hide Tracks, Recalls, Legal, Shaped, Needs, RowOf, PlanOf, InRange, NeverIsFar, IsHit, IsConflict, Possible;
    PlanIsPossible(p, s, k, t, w);
    var pl := PlanOf(p, s.c, k, t, w);
    SendsNeeds(p, s, k, t, w, TimesOf(pl));
    forall x | Possible(p, s.tr, k, t, w, x)
      ensures pl.col <= x.col && (!pl.kind.Hit? ==> pl.act <= x.act) && (pl.kind.Conflict? ==> pl.pre <= x.pre)
    {
      NotSooner(p, s, k, t, w, x);
    }
  }

  lemma PlanIsPossible(p: Params, s: Line, k: Coord, t: int, w: bool)
    requires Sound(p, s) && Shaped(p, s.c) && InRange(p, k)
    ensures var pl := PlanOf(p, s.c, k, t, w);
            && pl.end == pl.col + Latency(p, w) + p.BurstPs()
            && Possible(p, s.tr, k, t, w, TimesOf(pl))
  {
    hide Tracks, Recalls, Legal, Needs, RowOf, EarliestAct, EarliestCol, InRange, IsHit, IsConflict, CommandsOf;
    SendsNeeds(p, s, k, t, w, TimesOf(PlanOf(p, s.c, k, t, w)));
    CommitSound(p, s, k, t, w);
    PlanFields(p, s.c, k, t, w);
    NotBeforeT(p, s.c, k, t, w);
  }

  /** The plan, field by field. */
  lemma PlanFields(p: Params, c: Channel, k: Coord, t: int, w: bool)
    requires Shaped(p, c) && InRange(p, k) && p.mtps > 0
    ensures var pl := PlanOf(p, c, k, t, w);
            var b := c.banks[pl.bank];
            && (pl.kind.Hit? <==> b.openRow == k.row) && (pl.kind.Conflict? ==> b.openRow >= 0)
            && (pl.kind.Conflict? ==>
                  pl.pre == Max(t, Max(b.act + p.tRAS, b.preOk)) && pl.act == EarliestAct(p, c, k, b, pl.pre + p.tRP))
            && (pl.kind.Miss? ==> pl.act == EarliestAct(p, c, k, b, t))
            && (pl.kind.Conflict? ==> b.openRow != k.row) && pl.end == pl.col + Latency(p, w) + p.BurstPs()
            && (pl.kind.Miss? ==> b.openRow < 0)
            && pl.col == EarliestCol(p, c, k, if pl.kind.Hit? then Max(t, b.act + p.tRCD) else pl.act + p.tRCD, w)
  {
    hide EarliestAct, EarliestCol, Params.BurstPs, BankOf;
  }

  lemma NotBeforeT(p: Params, c: Channel, k: Coord, t: int, w: bool)
    requires Shaped(p, c) && InRange(p, k) && p.TimingsOk()
    ensures var pl := PlanOf(p, c, k, t, w);
            && t <= pl.col && (!pl.kind.Hit? ==> t <= pl.act) && (pl.kind.Conflict? ==> t <= pl.pre)
  {
    hide PlanOf, EarliestAct, EarliestCol, InRange;
    PlanFields(p, c, k, t, w);
    var pl := PlanOf(p, c, k, t, w);
    var b := c.banks[pl.bank];
    StartsFrom(p, c, k, b, t, w);
    StartsFrom(p, c, k, b, pl.pre + p.tRP, w);
    StartsFrom(p, c, k, b, pl.act + p.tRCD, w);
    StartsFrom(p, c, k, b, Max(t, b.act + p.tRCD), w);
  }

  lemma StartsFrom(p: Params, c: Channel, k: Coord, b: Bank, from: int, w: bool)
    requires Shaped(p, c) && InRange(p, k)
    ensures from <= EarliestAct(p, c, k, b, from) && from <= EarliestCol(p, c, k, from, w)
  {
  }

  lemma NotSooner(p: Params, s: Line, k: Coord, t: int, w: bool, x: CommandTimes)
    requires Sound(p, s) && Shaped(p, s.c) && InRange(p, k) && NeverIsFar(p) && 0 <= t
    requires Possible(p, s.tr, k, t, w, x)
    ensures var pl := PlanOf(p, s.c, k, t, w);
            pl.col <= x.col && (!pl.kind.Hit? ==> pl.act <= x.act) && (pl.kind.Conflict? ==> pl.pre <= x.pre)
  {
    hide Tracks, Recalls, Legal, Shaped, Needs, CommandsOf, RowOf, Allowed, PlanOf, EarliestAct, EarliestCol, InRange,
         NeverIsFar, IsHit, IsConflict, PreOf, ActOf;
    var pl := PlanOf(p, s.c, k, t, w);
    SendsNeeds(p, s, k, t, w, x);
    EachAllowed(p, s.tr, At(p, pl, w, x), w);
    PlanFields(p, s.c, k, t, w);
    if pl.kind.Conflict? { PreNotSooner(p, s, k, t, w, x); }
    if !pl.kind.Hit? { ActNotSooner(p, s, k, t, w, x); }
    ColNotSooner(p, s, k, t, w, x);
  }

  lemma PreNotSooner(p: Params, s: Line, k: Coord, t: int, w: bool, x: CommandTimes)
    requires Sound(p, s) && Shaped(p, s.c) && InRange(p, k) && 0 <= t <= x.pre
    requires PlanOf(p, s.c, k, t, w).kind.Conflict?
    requires Allowed(p, s.tr, Pre(x.pre, PlanOf(p, s.c, k, t, w).bank))
    ensures PlanOf(p, s.c, k, t, w).pre <= x.pre
  {
    hide Tracks, Recalls, Legal, PlanOf, Allowed, RowOf, InRange;
    PlanFields(p, s.c, k, t, w);
    PreNotBefore(p, s, PlanOf(p, s.c, k, t, w).bank, x.pre);
  }

  lemma ActNotSooner(p: Params, s: Line, k: Coord, t: int, w: bool, x: CommandTimes)
    requires Sound(p, s) && Shaped(p, s.c) && InRange(p, k) && NeverIsFar(p) && 0 <= t <= x.act
    requires var pl := PlanOf(p, s.c, k, t, w);
             && !pl.kind.Hit? && (pl.kind.Conflict? ==> pl.pre <= x.pre)
             && Allowed(p, s.tr + PreOf(At(p, pl, w, x)), Act(x.act, k.bg, pl.bank, k.row))
    ensures PlanOf(p, s.c, k, t, w).act <= x.act
  {
    hide Tracks, Recalls, Legal, PlanOf, Allowed, EarliestAct, InRange, NeverIsFar, PreOf;
    PlanFields(p, s.c, k, t, w);
    var pl := PlanOf(p, s.c, k, t, w);
    var b := s.c.banks[pl.bank];
    if pl.kind.Conflict? { PreThenAct(p, s.tr, At(p, pl, w, x)); }
    ActNotBefore(p, s, k, b, At(p, pl, w, x), if pl.kind.Conflict? then pl.pre + p.tRP else t, x.act);
  }

  lemma ColNotSooner(p: Params, s: Line, k: Coord, t: int, w: bool, x: CommandTimes)
    requires Sound(p, s) && Shaped(p, s.c) && InRange(p, k) && NeverIsFar(p) && 0 <= t <= x.col
    requires var pl := PlanOf(p, s.c, k, t, w);
             var pl' := At(p, pl, w, x);
             && (!pl.kind.Hit? ==> pl.act <= x.act)
             && Allowed(p, s.tr + PreOf(pl') + ActOf(pl'), ColOf(pl', w))
    ensures PlanOf(p, s.c, k, t, w).col <= x.col
  {
    hide Tracks, Recalls, Legal, PlanOf, Allowed, EarliestCol, InRange, NeverIsFar, PreOf, ActOf, LastOf, RowOf,
         ActTimes, RefCount;
    PlanFields(p, s.c, k, t, w);
    var pl := PlanOf(p, s.c, k, t, w);
    var pl' := At(p, pl, w, x);
    var h1 := s.tr + PreOf(pl');
    AcrossPre(s.tr, pl', pl.bank);
    AcrossAct(h1, pl', pl.bank);
    ActThenCol(p, s, k, pl', w);
    ColNotBefore(p, s, h1 + ActOf(pl'), k, pl.bank,
                 if pl.kind.Hit? then Max(t, s.c.banks[pl.bank].act + p.tRCD) else pl.act + p.tRCD, w, x.col,
                 pl'.end);
  }

  /** Each command of a legal burst is allowed in its turn. */
  lemma EachAllowed(p: Params, h: seq<Cmd>, pl: Plan, w: bool)
    requires p.mtps > 0 && Legal(p, h + CommandsOf(pl, w))
    ensures pl.kind.Conflict? ==> Allowed(p, h, Pre(pl.pre, pl.bank))
    ensures !pl.kind.Hit? ==> Allowed(p, h + PreOf(pl), Act(pl.act, pl.k.bg, pl.bank, pl.k.row))
    ensures Allowed(p, h + PreOf(pl) + ActOf(pl), ColOf(pl, w))
  {
    var all := h + CommandsOf(pl, w);
    hide Legal, Allowed;
    if pl.kind.Conflict? {
      LegalAt(p, all, |h|);
      assert all[..|h|] == h;
    }
    if !pl.kind.Hit? {
      var n := |h + PreOf(pl)|;
      LegalAt(p, all, n);
      assert all[..n] == h + PreOf(pl);
    }
    var n := |h + PreOf(pl) + ActOf(pl)|;
    LegalAt(p, all, n);
    assert all[..n] == h + PreOf(pl) + ActOf(pl);
  }

  lemma PreThenAct(p: Params, h: seq<Cmd>, pl: Plan)
    requires p.mtps > 0 && pl.kind.Conflict?
    requires Allowed(p, h + PreOf(pl), Act(pl.act, pl.k.bg, pl.bank, pl.k.row))
    ensures pl.pre + p.tRP <= pl.act
  {
    assert Pre(pl.pre, pl.bank) in h + PreOf(pl);
  }

  /** tRCD: since the burst's own ACT, or since the row was opened. */
  lemma ActThenCol(p: Params, s: Line, k: Coord, pl: Plan, w: bool)
    requires Sound(p, s) && pl.bank < |s.c.banks| && pl.k == k
    requires pl.kind.Hit? ==> s.c.banks[pl.bank].openRow == k.row
    requires Allowed(p, s.tr + PreOf(pl) + ActOf(pl), ColOf(pl, w))
    ensures (if pl.kind.Hit? then s.c.banks[pl.bank].act else pl.act) + p.tRCD <= pl.col
  {
    var h1 := s.tr + PreOf(pl);
    AcrossPre(s.tr, pl, pl.bank);
    AcrossAct(h1, pl, pl.bank);
    assert BankTracks(p, s.c.banks[pl.bank], pl.bank, s.tr);
    hide Legal, Recalls, BanksTrack, NeighbourRule, Spaced, Shape;
  }

  /* ---- Refreshes ---- */

  ghost predicate SomeOpen(h: seq<Cmd>) { exists b: nat :: RowOf(h, b).Open? }

  /** When the next refresh falls due. */
  ghost function NextDue(p: Params, h: seq<Cmd>): int { (RefCount(h) + 1) * p.tREFI }

  /** The next refresh at `r`, after a precharge of all banks at `a` if a row is open. */
  ghost function Refreshing(p: Params, h: seq<Cmd>, a: int, r: int): seq<Cmd> {
    (if SomeOpen(h) then [PreAll(a)] else []) + [Ref(r, r + p.tRFC, NextDue(p, h))]
  }

  /** The device allows that, and no row is closed for it before it is due. */
  ghost predicate MayRefresh(p: Params, h: seq<Cmd>, a: int, r: int)
    requires p.mtps > 0
  {
    (SomeOpen(h) ==> NextDue(p, h) <= a) && Legal(p, h + Refreshing(p, h, a, r))
  }

  /** From `h` to `h'` by a refresh that could not have come sooner. */
  ghost predicate PromptRefresh(p: Params, h: seq<Cmd>, h': seq<Cmd>)
    requires p.mtps > 0
  {
    exists a, r :: MayRefresh(p, h, a, r) && h' == h + Refreshing(p, h, a, r) &&
                   forall a', r' :: MayRefresh(p, h, a', r') ==> r <= r' && (SomeOpen(h) ==> a <= a')
  }

  lemma OpenIsOpen(p: Params, s: Line)
    requires BanksTrack(p, s.c.banks, s.tr)
    ensures SomeOpen(s.tr) <==> AnyOpen(s.c.banks)
  {
    hide RowOf, Remembers;
    if b: nat :| RowOf(s.tr, b).Open? {
      if b < |s.c.banks| { assert BankTracks(p, s.c.banks[b], b, s.tr); }
    }
    if i :| 0 <= i < |s.c.banks| && s.c.banks[i].openRow >= 0 {
      assert BankTracks(p, s.c.banks[i], i, s.tr);
    }
  }

  /** What a bank must wait for before the precharge of a refresh, or before the refresh itself. */
  lemma BankWaits(p: Params, s: Line, bank: nat, a: int)
    requires Sound(p, s) && bank < |s.c.banks| && 0 <= a
    requires if AnyOpen(s.c.banks) then Allowed(p, s.tr, PreAll(a))
             else exists end, due :: Allowed(p, s.tr, Ref(a, end, due))
    ensures s.c.banks[bank].actOk <= a
    ensures s.c.banks[bank].openRow >= 0 ==> s.c.banks[bank].act + p.tRAS <= a && s.c.banks[bank].preOk <= a
  {
    hide Legal, RowOf, NeighbourRule, Shape, BusTracks, FawTracks;
    var b := s.c.banks[bank];
    assert BankTracks(p, b, bank, s.tr) && BankRecalls(p, b, bank, s.tr);
    if AnyOpen(s.c.banks) {
      assert RowRule(p, s.tr, PreAll(a));
      var i :| 0 <= i < |s.c.banks| && s.c.banks[i].openRow >= 0;
      assert BankTracks(p, s.c.banks[i], i, s.tr) && RowOf(s.tr, i).Open?;
      if b.actOk != 0 {
        var e :| e in s.tr && e.Ref? && e.end == b.actOk;
        assert Remembers(p, s.c.banks[i], i, e);
      }
      if b.preOk != 0 {
        var e :| e in s.tr && e.Col? && e.bank == bank && Recovery(p, e) == b.preOk;
        assert Spaced(p, e, PreAll(a));
      }
      assert b.openRow >= 0 ==> RowOf(s.tr, bank).Open?;
    } else {
      var end, due :| Allowed(p, s.tr, Ref(a, end, due));
      if b.actOk != 0 {
        var e :| e in s.tr && e.Ref? && e.end == b.actOk;
        assert Spaced(p, e, Ref(a, end, due));
      }
    }
  }

  lemma BusWaits(p: Params, s: Line, c: Cmd)
    requires Sound(p, s) && (c.PreAll? || c.Ref?) && 0 <= c.at && Allowed(p, s.tr, c)
    ensures s.c.busFree <= c.at
  {
    if s.c.busFree != 0 {
      var e :| e in s.tr && e.Col? && e.end == s.c.busFree;
      assert Spaced(p, e, c);
    }
  }

  lemma {:induction false} StartOverNotAfter(p: Params, banks: seq<Bank>, start: int, a: int)
    requires start <= a
    requires forall i :: 0 <= i < |banks| ==>
               banks[i].actOk <= a && (banks[i].openRow >= 0 ==> banks[i].act + p.tRAS <= a && banks[i].preOk <= a)
    ensures StartOver(p, banks, start) <= a
  {
    if banks != [] { StartOverNotAfter(p, banks[..|banks| - 1], start, a); }
  }

  /** No allowed precharge-all (or refresh, if no row is open) comes before the state's own. */
  lemma ReadyNotAfter(p: Params, s: Line, c: Cmd)
    requires Sound(p, s) && 0 <= c.at && s.c.nextRefresh <= c.at && Allowed(p, s.tr, c)
    requires if AnyOpen(s.c.banks) then c.PreAll? else c.Ref?
    ensures ReadyAt(p, s.c) <= c.at
  {
    hide Tracks, Recalls, Legal, Allowed, StartOver, AnyOpen;
    BusWaits(p, s, c);
    forall i | 0 <= i < |s.c.banks|
      ensures s.c.banks[i].actOk <= c.at
      ensures s.c.banks[i].openRow >= 0 ==> s.c.banks[i].act + p.tRAS <= c.at && s.c.banks[i].preOk <= c.at
    {
      assert !AnyOpen(s.c.banks) ==> Allowed(p, s.tr, Ref(c.at, c.end, c.due));
      BankWaits(p, s, i, c.at);
    }
    StartOverNotAfter(p, s.c.banks, Max(s.c.nextRefresh, s.c.busFree), c.at);
  }

  /** The two commands of a legal refresh are allowed in their turn, the refresh tRPab after the precharge. */
  lemma RefreshAllowed(p: Params, h: seq<Cmd>, a: int, r: int)
    requires p.mtps > 0 && Legal(p, h + Refreshing(p, h, a, r))
    ensures SomeOpen(h) ==> Allowed(p, h, PreAll(a)) && a + p.tRPab <= r
    ensures !SomeOpen(h) ==> Allowed(p, h, Ref(r, r + p.tRFC, NextDue(p, h)))
    ensures NextDue(p, h) <= r
  {
    hide Legal, RowOf, NeighbourRule, RowRule, SomeOpen;
    var tr, ref := h + Refreshing(p, h, a, r), Ref(r, r + p.tRFC, NextDue(p, h));
    LegalAt(p, tr, |h|);
    assert tr[..|h|] == h;
    if SomeOpen(h) {
      LegalAt(p, tr, |h| + 1);
      assert tr[..|h| + 1] == h + [PreAll(a)];
      assert PreAll(a) in h + [PreAll(a)];
      assert Spaced(p, PreAll(a), ref);
      CountsSnoc(h, PreAll(a));
    }
  }

  /** A refresh that is due starts as soon as the device allows. */
  lemma RefreshIsEarliest(p: Params, s: Line)
    requires Sound(p, s) && Shaped(p, s.c) && p.tREFI > 0
    ensures PromptRefresh(p, s.tr, RefreshOne(p, s).tr)
  {
    hide Legal, BanksTrack, BusTracks, FawTracks, Recalls, SomeOpen, AnyOpen, StartOver, Allowed, RefCount;
    var h, a, r := s.tr, ReadyAt(p, s.c), RefStart(p, s.c);
    OpenIsOpen(p, s);
    RefreshLegal(p, s);
    BanksReady(p, s.c);
    assert RefreshOne(p, s).tr == h + Refreshing(p, h, a, r);
    assert MayRefresh(p, h, a, r);
    DueIsLater(p, h);
    forall a', r' | MayRefresh(p, h, a', r') ensures r <= r' && (SomeOpen(h) ==> a <= a') {
      RefreshAllowed(p, h, a', r');
      ReadyNotAfter(p, s, if SomeOpen(h) then PreAll(a') else Ref(r', r' + p.tRFC, NextDue(p, h)));
    }
  }

  lemma DueIsLater(p: Params, h: seq<Cmd>)
    requires p.tREFI > 0
    ensures NextDue(p, h) > 0
  {
    MulPositive(RefCount(h) + 1, p.tREFI);
  }

  /** `n` prompt refreshes, each due by `t`. */
  ghost predicate Refreshes(p: Params, h: seq<Cmd>, h': seq<Cmd>, t: int, n: nat)
    requires p.mtps > 0
    decreases n
  {
    if n == 0 then h' == h
    else exists h1 :: NextDue(p, h) <= t && PromptRefresh(p, h, h1) && Refreshes(p, h1, h', t, n - 1)
  }

  /** Every refresh due by `t`, promptly, and none besides. */
  ghost predicate RefreshedTo(p: Params, h: seq<Cmd>, h': seq<Cmd>, t: int)
    requires p.mtps > 0
  {
    if p.tREFI <= 0 then h' == h else t < NextDue(p, h') && exists n :: Refreshes(p, h, h', t, n)
  }

  lemma {:induction false} AllPrompt(p: Params, s: Line, t: int) returns (n: nat)
    requires Sound(p, s) && Shaped(p, s.c) && p.tREFI > 0
    ensures Refreshes(p, s.tr, RefreshAll(p, s, t).tr, t, n)
    decreases if s.c.nextRefresh <= t then t - s.c.nextRefresh + 1 else 0
  {
    hide Legal, BanksTrack, BusTracks, FawTracks, Recalls, PromptRefresh, RefreshOne;
    n := 0;
    if s.c.nextRefresh <= t {
      RefreshIsEarliest(p, s);
      RefreshSound(p, s);
      RefreshedOnce(p, s);
      n := AllPrompt(p, RefreshOne(p, s), t);
      n := n + 1;
    }
  }

  lemma RefreshedOnce(p: Params, s: Line)
    ensures RefreshOne(p, s).c.nextRefresh == s.c.nextRefresh + p.tREFI
  {
  }

  lemma PromptlyTo(p: Params, s: Line, t: int)
    requires Sound(p, s) && Shaped(p, s.c)
    ensures RefreshedTo(p, s.tr, RefreshTo(p, s, t).tr, t)
  {
    hide Legal, BanksTrack, BusTracks, FawTracks, Recalls, Refreshes, RefreshAll, RefreshOne;
    if p.tREFI > 0 {
      var n := AllPrompt(p, s, t);
      RefreshToSound(p, s, t);
    }
  }

  /* ---- A whole burst ---- */

  /**
    The refreshes that a burst lets go first, in `n` rounds: each round there is one that falls due before
    the earliest column command the device would then allow.
   */
  ghost predicate LetGo(p: Params, h: seq<Cmd>, h': seq<Cmd>, k: Coord, t: int, w: bool, n: nat)
    requires p.mtps > 0
    decreases n
  {
    if n == 0 then h' == h
    else exists h1, x: CommandTimes :: && Soonest(p, h, k, t, w, x) && p.tREFI > 0 && NextDue(p, h) <= x.col
                                && RefreshedTo(p, h, h1, x.col) && LetGo(p, h1, h', k, t, w, n - 1)
  }

  /** The device allows these times, and none sooner. */
  ghost predicate Soonest(p: Params, h: seq<Cmd>, k: Coord, t: int, w: bool, x: CommandTimes)
    requires p.mtps > 0
  {
    Possible(p, h, k, t, w, x) && Earliest(p, h, k, t, w, x)
  }

  /**
    A burst that may start at `t`: from `h`, the refreshes due by then and those it has to let go first lead
    to `h'`; its commands follow as soon as the device allows, before the next refresh is due.
   */
  ghost predicate Served(p: Params, h: seq<Cmd>, h': seq<Cmd>, k: Coord, t: int, w: bool, x: CommandTimes)
    requires p.mtps > 0
  {
    && (exists h0, n :: RefreshedTo(p, h, h0, t) && LetGo(p, h0, h', k, t, w, n))
    && Soonest(p, h', k, t, w, x)
    && (p.tREFI > 0 ==> x.col < NextDue(p, h'))
  }

  /** When the burst's first command goes out; on an open row, when its column command could have. */
  ghost function FirstAt(p: Params, h: seq<Cmd>, k: Coord, t: int, x: CommandTimes): int {
    match RowOf(h, BankOf(p, k))
    case Closed => x.act
    case Open(row, since) => if row == k.row then Max(t, since + p.tRCD) else x.pre
  }

  /**
    From one line to the next by a burst that arrives at `arrive`: it may start then, or with the first command
    of the burst before it; later bursts are kept behind its own first command; it ends with its data.
   */
  ghost predicate PromptOn(p: Params, s: Line, s': Line, k: Coord, arrive: int, w: bool, end: int, h: seq<Cmd>,
                           x: CommandTimes)
    requires p.mtps > 0
  {
    var t := Max(arrive, s.c.order);
    && Served(p, s.tr, h, k, t, w, x) && s'.tr == h + Needs(p, h, k, w, x)
    && s'.c.order == FirstAt(p, h, k, t, x) && end == x.col + Latency(p, w) + p.BurstPs()
  }

  lemma {:induction false} ReplanLetsGo(p: Params, s: Line, k: Coord, t: int, w: bool) returns (n: nat)
    requires Ready(p, s.c, k) && RefreshFits(p) && Sound(p, s) && NeverIsFar(p) && 0 <= t
    ensures LetGo(p, s.tr, Replan(p, s, k, t, w).tr, k, t, w, n)
    decreases if Settled(s.c) then 0 else 1, Max(Gap(p, s.c, k, t, w) + 1, 0)
  {
    hide Tracks, Recalls, Legal, PlanOf, Replan, RefreshAll, Possible, Earliest, RefreshedTo, Settled, Gap, NeverIsFar;
    n := 0;
    var pl := PlanOf(p, s.c, k, t, w);
    if RunsIntoRefresh(p, s.c, pl) {
      PlanIsEarliest(p, s, k, t, w);
      PromptlyTo(p, s, pl.col);
      RefreshToSound(p, s, pl.col);
      ReplanTurn(p, s, k, t, w);
      DueIs(p, s);
      n := ReplanLetsGo(p, RefreshTo(p, s, pl.col), k, t, w);
      n := n + 1;
      assert Soonest(p, s.tr, k, t, w, TimesOf(pl));
    } else {
      ReplanDone(p, s, k, t, w);
    }
  }

  lemma DueIs(p: Params, s: Line)
    requires Sound(p, s)
    ensures s.c.nextRefresh == NextDue(p, s.tr)
  {
  }

  lemma OrderIs(p: Params, s: Line, k: Coord, t: int, w: bool)
    requires Sound(p, s) && Shaped(p, s.c) && InRange(p, k) && 0 <= t
    ensures var pl := PlanOf(p, s.c, k, t, w);
            CommitOf(p, s.c, pl, w).order == FirstAt(p, s.tr, k, t, TimesOf(pl))
  {
    hide Legal, Recalls, RowOf, BusTracks, FawTracks;
    var b := BankOf(p, k);
    BankInRange(p, k);
    assert BankTracks(p, s.c.banks[b], b, s.tr);
  }

  /**
    A burst waits for nothing but the device: whatever the state of the channel, the commands sent are the
    refreshes that are due or in the way, and the burst's own, each as soon as it is allowed.
   */
  lemma BurstIsPrompt(p: Params, s: Line, k: Coord, arrive: int, w: bool)
    requires Ready(p, s.c, k) && RefreshFits(p) && Sound(p, s) && NeverIsFar(p) && 0 <= Max(arrive, s.c.order)
    ensures var h' := BeforeBurst(p, s, k, arrive, w).tr;
            var s', x := Burst(p, s, k, arrive, w), TimesOf(BurstPlan(p, s, k, arrive, w));
            PromptOn(p, s, s', k, arrive, w, BurstPlan(p, s, k, arrive, w).end, h', x)
  {
    hide Tracks, Recalls, Legal, PlanOf, CommitOf, Replan, Possible, Earliest, RefreshedTo, LetGo, NeverIsFar, FirstAt,
         Needs, CommandsOf, BeforeBurst, RefreshTo;
    var t := Max(arrive, s.c.order);
    var s1, m := RefreshTo(p, s, t), BeforeBurst(p, s, k, arrive, w);
    BeforeBurstIs(p, s, k, arrive, w);
    PromptlyTo(p, s, t);
    RefreshToSound(p, s, t);
    var n := ReplanLetsGo(p, s1, k, t, w);
    ReplanSound(p, s1, k, t, w);
    PlanIsEarliest(p, m, k, t, w);
    SendsNeeds(p, m, k, t, w, TimesOf(PlanOf(p, m.c, k, t, w)));
    OrderIs(p, m, k, t, w);
    DueIs(p, m);
  }
}
