/**
  Spacing between all pairs of commands, however far apart (`targets/hetero/dram_core.hpp`, `plan`).
  The engine compares a command with the last of its kind only. For which memories is that enough?
  Exact conditions, over every run of bursts from a fresh channel.
 */
module DramSpacing {
  import opened Arith
  import opened DramDevice
  import opened DramMapping
  import opened DramChannel
  import opened DramRefresh
  import opened DramBurst

  /** Row 0 of bank 0 of the first group, and of the second. */
  const ONE: Coord := Coord(0, 0, 0, 0, 0, 0)
  const OTHER: Coord := Coord(0, 0, 1, 0, 0, 0)

  datatype Request = Request(k: Coord, arrive: int, write: bool)

  ghost predicate Runnable(p: Params) {
    p.TimingsOk() && p.ranks == 1 && p.bankgroups > 0 && p.banks > 0 && RefreshFits(p)
  }

  lemma BanksThere(p: Params)
    requires Runnable(p)
    ensures p.NumBanks() > 0
  {
    MulPositive(p.bankgroups, p.banks);
  }

  /** One burst. */
  ghost predicate Follows(p: Params, s: Line, r: Request, s': Line) {
    RefreshFits(p) && Ready(p, s.c, r.k) && s' == Burst(p, s, r.k, r.arrive, r.write)
  }

  /** A run of bursts from a fresh channel: the line before and after each. */
  ghost predicate IsRun(p: Params, reqs: seq<Request>, lines: seq<Line>) {
    && |lines| == |reqs| + 1 && lines[0] == Line(FreshChannel(p), [])
    && forall i :: 0 <= i < |reqs| ==> Follows(p, lines[i], reqs[i], lines[i + 1])
  }

  lemma {:induction false} RunSound(p: Params, reqs: seq<Request>, lines: seq<Line>, n: nat)
    requires Runnable(p) && IsRun(p, reqs, lines) && n < |lines|
    ensures Sound(p, lines[n]) && Shaped(p, lines[n].c)
  {
    BanksThere(p);
    if n == 0 {
      FreshIsSound(p);
    } else {
      RunSound(p, reqs, lines, n - 1);
      var r := reqs[n - 1];
      assert Follows(p, lines[n - 1], r, lines[n]);
      hide Burst, Sound, BurstPlan, IsRun, Runnable;
      BurstSound(p, lines[n - 1], r.k, r.arrive, r.write);
    }
  }

  /** All activates of a trace keep tRRD. */
  ghost predicate ActsSpread(p: Params, tr: seq<Cmd>) {
    forall i, j :: 0 <= i < j < |tr| && tr[i].Act? && tr[j].Act? ==>
      tr[i].at + (if tr[i].bg == tr[j].bg then p.tRRD_L else p.tRRD_S) <= tr[j].at
  }

  /** All column commands keep tCCD. */
  ghost predicate ColsSpread(p: Params, tr: seq<Cmd>) {
    forall i, j :: 0 <= i < j < |tr| && tr[i].Col? && tr[j].Col? ==>
      tr[i].at + (if tr[i].bg == tr[j].bg then p.tCCD_L else p.tCCD_S) <= tr[j].at
  }

  /* ---- With one bank group every command names it ---- */

  ghost predicate OneGroup(tr: seq<Cmd>) { forall c :: c in tr && (c.Act? || c.Col?) ==> c.bg == 0 }

  lemma {:induction false} RefreshNamesNoGroup(p: Params, s: Line, t: int)
    requires OneGroup(s.tr)
    ensures OneGroup(RefreshTo(p, s, t).tr)
    decreases if s.c.nextRefresh <= t then t - s.c.nextRefresh + 1 else 0
  {
    if p.tREFI > 0 && s.c.nextRefresh <= t { RefreshNamesNoGroup(p, RefreshOne(p, s), t); }
  }

  lemma {:induction false} ReplanNamesNoGroup(p: Params, s: Line, k: Coord, t: int, w: bool)
    requires Ready(p, s.c, k) && RefreshFits(p) && OneGroup(s.tr)
    ensures OneGroup(Replan(p, s, k, t, w).tr)
    decreases if Settled(s.c) then 0 else 1, Max(Gap(p, s.c, k, t, w) + 1, 0)
  {
    hide RefreshTo, Settled, Gap, PlanOf, OneGroup;
    var pl := PlanOf(p, s.c, k, t, w);
    if RunsIntoRefresh(p, s.c, pl) {
      ReplanTurn(p, s, k, t, w);
      RefreshNamesNoGroup(p, s, pl.col);
      ReplanNamesNoGroup(p, RefreshTo(p, s, pl.col), k, t, w);
    } else {
      ReplanDone(p, s, k, t, w);
    }
  }

  lemma BurstNamesOneGroup(p: Params, s: Line, k: Coord, arrive: int, w: bool)
    requires Ready(p, s.c, k) && RefreshFits(p) && OneGroup(s.tr) && k.bg == 0
    ensures OneGroup(Burst(p, s, k, arrive, w).tr)
  {
    var t := Max(arrive, s.c.order);
    BeforeBurstIs(p, s, k, arrive, w);
    RefreshNamesNoGroup(p, s, t);
    ReplanNamesNoGroup(p, RefreshTo(p, s, t), k, t, w);
    hide RefreshTo, Replan, PlanOf, BeforeBurst, CommitOf;
  }

  lemma {:induction false} RunNamesOneGroup(p: Params, reqs: seq<Request>, lines: seq<Line>, n: nat)
    requires Runnable(p) && IsRun(p, reqs, lines) && p.bankgroups == 1 && n < |lines|
    ensures OneGroup(lines[n].tr)
  {
    if n > 0 {
      RunNamesOneGroup(p, reqs, lines, n - 1);
      var r := reqs[n - 1];
      assert Follows(p, lines[n - 1], r, lines[n]);
      assert r.k.bg == 0;
      hide Burst, OneGroup, IsRun, Runnable;
      BurstNamesOneGroup(p, lines[n - 1], r.k, r.arrive, r.write);
    }
  }

  /* ---- Activates ---- */

  /** Timings do not reach from "never" to time 0, and three reads from time 0 on come before a refresh. */
  ghost predicate RoomForThree(p: Params)
    requires p.mtps > 0
  {
    && NEVER + p.tRC <= 0 && NEVER + p.tCCD_S <= 0
    && (p.tREFI > 0 ==> p.tRCD + 2 * (p.tRRD_S + p.tCCD_S + p.BurstPs()) < p.tREFI)
  }

  /** Reads of row 0: of one group, of another, and of another bank of the first. */
  function CloseActivates(): seq<Request> {
    [Request(Coord(0, 0, 0, 0, 0, 0), 0, false), Request(Coord(0, 0, 1, 0, 0, 0), 0, false),
     Request(Coord(0, 0, 0, 1, 0, 0), 0, false)]
  }

  /**
    Comparing with the last ACT is enough for every pair, in every run, exactly if there is one
    bank group or tRRD_L is no more than twice tRRD_S. (With several banks per group; a single one
    cannot be opened again that soon.)
   */
  lemma ActSpacingIff(p: Params)
    requires Runnable(p) && RoomForThree(p) && p.banks >= 2
    ensures p.bankgroups == 1 || p.tRRD_L <= 2 * p.tRRD_S <==>
            forall reqs: seq<Request>, lines: seq<Line> :: IsRun(p, reqs, lines) ==> ActsSpread(p, lines[|reqs|].tr)
  {
    if p.bankgroups == 1 || p.tRRD_L <= 2 * p.tRRD_S {
      forall reqs: seq<Request>, lines: seq<Line> | IsRun(p, reqs, lines) ensures ActsSpread(p, lines[|reqs|].tr) {
        ActsKeepApart(p, reqs, lines);
      }
    } else {
      hide ActsSpread, Opened, Follows;
      var lines := CloseActivatesRun(p);
      assert !ActsSpread(p, lines[|CloseActivates()|].tr);
    }
  }

  lemma ActsKeepApart(p: Params, reqs: seq<Request>, lines: seq<Line>)
    requires Runnable(p) && IsRun(p, reqs, lines) && (p.bankgroups == 1 || p.tRRD_L <= 2 * p.tRRD_S)
    ensures ActsSpread(p, lines[|reqs|].tr)
  {
    RunSound(p, reqs, lines, |reqs|);
    if p.bankgroups == 1 { RunNamesOneGroup(p, reqs, lines, |reqs|); }
    var tr := lines[|reqs|].tr;
    assert Legal(p, tr) && p.TimingsOk();
    hide Sound, Shaped, Legal, Runnable, IsRun;
    forall i, j | 0 <= i < j < |tr| && tr[i].Act? && tr[j].Act?
      ensures tr[i].at + (if tr[i].bg == tr[j].bg then p.tRRD_L else p.tRRD_S) <= tr[j].at
    {
      AllPairsRrd(p, tr, i, j);
    }
  }

  /** Where they land: at 0, tRRD_S and 2 tRRD_S. */
  lemma CloseActivatesRun(p: Params) returns (lines: seq<Line>)
    requires Runnable(p) && RoomForThree(p) && p.banks >= 2 && p.bankgroups >= 2
    ensures IsRun(p, CloseActivates(), lines)
    ensures p.tRRD_L > 2 * p.tRRD_S ==> !ActsSpread(p, lines[3].tr)
  {
    hide Opened, Follows, ActsSpread;
    var s1 := FirstActivate(p, {1, p.banks});
    var s2 := NextActivate(p, s1, 1, 0, {1, p.banks}, {0}, 1, 0);
    var s3 := NextActivate(p, s2, 2, 1, {1, p.banks} - {p.banks}, {0} + {p.banks}, 0, 1);
    lines := [Line(FreshChannel(p), []), s1, s2, s3];
    TooClose(p, s3, {1, p.banks} - {p.banks} - {1}, {0} + {p.banks} + {1});
  }

  lemma TooClose(p: Params, s: Line, rest: set<nat>, used: set<nat>)
    requires p.mtps > 0 && Opened(p, s, 3, 0, rest, used)
    ensures p.tRRD_L > 2 * p.tRRD_S ==> !ActsSpread(p, s.tr)
  {
    assert s.tr[0].Act? && s.tr[4].Act?;
  }

  /**
    Reads so far: n rows opened, tRRD_S apart, the last in group `bg`; the banks of `used` open, those of
    `rest` not used yet.
   */
  ghost predicate Opened(p: Params, s: Line, n: nat, bg: nat, rest: set<nat>, used: set<nat>)
    requires p.mtps > 0
  {
    var c := s.c;
    && n > 0 && Shaped(p, c) && p.ranks == 1 && c.nextRefresh == p.tREFI &&
       0 <= c.order <= c.lastAct == (n - 1) * p.tRRD_S
    && c.lastActRank == 0 && c.lastActBg == bg && |c.faw[0]| == n
    && c.lastColRank == 0 && c.lastColBg == bg && !c.lastWasWrite && c.busFree == c.lastCol + p.tRL + p.BurstPs()
    && c.lastAct + p.tRCD <= c.lastCol <= p.tRCD + (n - 1) * (p.tRRD_S + p.tCCD_S + p.BurstPs())
    && (forall b :: b in rest && b < |c.banks| ==> c.banks[b] == FreshBank())
    && (forall b :: b in used ==> b < |c.banks| && c.banks[b].openRow == 0 && c.banks[b].act <= c.lastAct)
    && |s.tr| == 2 * n && s.tr[0].Act? && s.tr[0].at == 0 && s.tr[0].bg == 0
    && s.tr[2 * n - 2].Act? && s.tr[2 * n - 2].at == (n - 1) * p.tRRD_S && s.tr[2 * n - 2].bg == bg
    && s.tr[2 * n - 1].Col? && s.tr[2 * n - 1].at == c.lastCol && s.tr[2 * n - 1].bg == bg
  }

  lemma FirstActivate(p: Params, rest: set<nat>) returns (s': Line)
    requires Runnable(p) && RoomForThree(p) && 0 !in rest
    ensures Follows(p, Line(FreshChannel(p), []), Request(Coord(0, 0, 0, 0, 0, 0), 0, false), s') &&
            Opened(p, s', 1, 0, rest, {0})
  {
    BanksThere(p);
    var k, s := Coord(0, 0, 0, 0, 0, 0), Line(FreshChannel(p), []);
    assert BankOf(p, k) == 0;
    var pl := PlanOf(p, s.c, k, 0, false);
    assert pl.kind.Miss? && pl.act == 0 && pl.col == p.tRCD;
    UndisturbedBurst(p, s, k, 0, false);
    s' := Burst(p, s, k, 0, false);
    hide PlanOf, Burst;
    assert CommandsOf(pl, false) == [Act(0, 0, 0, 0), ColOf(pl, false)];
  }

  /** One more, in bank `ba` of another group. */
  lemma NextActivate(p: Params, s: Line, n: nat, bg: nat, rest: set<nat>, used: set<nat>, g: nat, ba: nat)
    returns (s': Line)
    requires Runnable(p) && RoomForThree(p) && Opened(p, s, n, bg, rest, used) && 1 <= n <= 2
    requires g < p.bankgroups && ba < p.banks && g != bg && g * p.banks + ba in rest
    ensures Follows(p, s, Request(Coord(0, 0, g, ba, 0, 0), 0, false), s')
    ensures Opened(p, s', n + 1, g, rest - {g * p.banks + ba}, used + {g * p.banks + ba})
  {
    var k := Coord(0, 0, g, ba, 0, 0);
    BanksThere(p);
    BankInRange(p, k);
    assert BankOf(p, k) == g * p.banks + ba;
    NextPlan(p, s, n, bg, rest, used, k);
    UndisturbedBurst(p, s, k, 0, false);
    s' := Burst(p, s, k, 0, false);
    var pl := PlanOf(p, s.c, k, Max(0, s.c.order), false);
    hide PlanOf, Burst, BankOf, Params.BurstPs;
    NextCommit(p, s, n, bg, rest, used, pl);
  }

  lemma NextCommit(p: Params, s: Line, n: nat, bg: nat, rest: set<nat>, used: set<nat>, pl: Plan)
    requires p.mtps > 0 && Opened(p, s, n, bg, rest, used) && 1 <= n <= 2 &&
             pl.k == Coord(0, 0, pl.k.bg, pl.k.ba, 0, 0) && InRange(p, pl.k)
    requires pl.bank == BankOf(p, pl.k) < |s.c.banks| && pl.bank in rest && 0 <= p.tRCD && 0 <= p.tRRD_S
    requires pl.kind.Miss? && pl.act == pl.firstCmd == s.c.lastAct + p.tRRD_S && pl.end == pl.col + p.tRL + p.BurstPs()
    requires pl.act + p.tRCD <= pl.col <= s.c.lastCol + p.tRRD_S + p.tCCD_S + p.BurstPs()
    ensures Opened(p, Commit(p, s, pl, false), n + 1, pl.k.bg, rest - {pl.bank}, used + {pl.bank})
  {
    hide BankOf, Params.BurstPs;
    assert CommandsOf(pl, false) == [Act(pl.act, pl.k.bg, pl.bank, 0), ColOf(pl, false)];
    Distribute(n - 1, 1, p.tRRD_S);
    Distribute(n - 1, 1, p.tRRD_S + p.tCCD_S + p.BurstPs());
  }

  lemma NextPlan(p: Params, s: Line, n: nat, bg: nat, rest: set<nat>, used: set<nat>, k: Coord)
    requires Runnable(p) && RoomForThree(p) && Opened(p, s, n, bg, rest, used) && 1 <= n <= 2
    requires k == Coord(0, 0, k.bg, k.ba, 0, 0) && InRange(p, k) && k.bg != bg && BankOf(p, k) in rest &&
             BankOf(p, k) < |s.c.banks|
    ensures var pl, t := PlanOf(p, s.c, k, Max(0, s.c.order), false), Max(0, s.c.order);
            && pl.kind.Miss? && pl.act == pl.firstCmd == s.c.lastAct + p.tRRD_S &&
               pl.end == pl.col + p.tRL + p.BurstPs()
            && t <= pl.act && pl.act + p.tRCD <= pl.col <= s.c.lastCol + p.tRRD_S + p.tCCD_S + p.BurstPs()
            && (p.tREFI > 0 ==> pl.col < p.tREFI)
  {
    hide BankOf, Params.BurstPs;
    assert (n - 1) * p.tRRD_S == if n == 1 then 0 else p.tRRD_S;
  }

  /* ---- Column commands ---- */

  /** How far a row hit's column command stays behind the one before it, of another bank group, on a bus kept busy. */
  function HitGap(p: Params, w: bool, w': bool): int
    requires p.mtps > 0
  {
    var bus := Max(p.tCCD_S, Latency(p, w) + p.BurstPs() - Latency(p, w'));
    if w && !w' then Max(bus, p.tWL + p.BurstPs() + p.tWTR_S) else if !w && w' then Max(bus, p.tRTW) else bus
  }

  /** The least time two of them take, over the kinds of the three commands. */
  function TwoGaps(p: Params, w0: bool, w1: bool, w2: bool): int
    requires p.mtps > 0
  {
    HitGap(p, w0, w1) + HitGap(p, w1, w2)
  }

  function LeastOf(p: Params, w: bool): int
    requires p.mtps > 0
  {
    Min(Min(TwoGaps(p, w, false, false), TwoGaps(p, w, false, true)),
        Min(TwoGaps(p, w, true, false), TwoGaps(p, w, true, true)))
  }

  function LeastTwoGaps(p: Params): int
    requires p.mtps > 0
  {
    Min(LeastOf(p, false), LeastOf(p, true))
  }

  /** The spacings within a bank group are the longer ones. */
  ghost predicate LongIsLonger(p: Params) {
    p.tCCD_S <= p.tCCD_L && p.tWTR_S <= p.tWTR_L && (p.tRTW_L == 0 || p.tRTW <= p.tRTW_L)
  }

  /** Neighbouring column commands are a gap apart; others two at least. */
  lemma {:induction false} ColumnsApart(p: Params, tr: seq<Cmd>, i: nat, j: nat)
    requires p.TimingsOk() && LongIsLonger(p) && Legal(p, tr) && i < j < |tr| && tr[i].Col? && tr[j].Col?
    requires p.tCCD_L <= LeastTwoGaps(p) || forall c :: c in tr && c.Col? ==> c.bg == 0
    ensures tr[i].at + HitGap(p, tr[i].write, tr[j].write) <= tr[j].at || tr[i].at + LeastTwoGaps(p) <= tr[j].at
    ensures tr[i].at + (if tr[i].bg == tr[j].bg then p.tCCD_L else p.tCCD_S) <= tr[j].at
    decreases j
  {
    hide HitGap, LeastTwoGaps, Legal, LastOf, Params.TimingsOk;
    var m := ColumnBefore(p, tr, i, j);
    GapToLast(p, tr, m, j);
    if i < m {
      GapsAreTwo(p, tr[i].write, tr[m].write, tr[j].write);
      ColumnsApart(p, tr, i, m);
    }
  }

  /** The column command before j, not earlier than i. */
  lemma ColumnBefore(p: Params, tr: seq<Cmd>, i: nat, j: nat) returns (m: nat)
    requires p.TimingsOk() && Legal(p, tr) && i < j < |tr| && tr[i].Col? && tr[j].Col?
    ensures i <= m < j && tr[m].Col? && LastOf(tr[..j], false) == [tr[m]] && tr[m].at <= tr[j].at
  {
    LegalPrefix(p, tr, j);
    LegalAt(p, tr, j);
    LastIsLatest(p, tr[..j], i, false);
    m := LastAt(tr[..j], false);
    assert tr[..j][i] == tr[i] && tr[..j][m] == tr[m];
  }

  lemma GapsAreTwo(p: Params, w0: bool, w1: bool, w2: bool)
    requires p.TimingsOk()
    ensures HitGap(p, w0, w1) + HitGap(p, w1, w2) >= LeastTwoGaps(p) >= 2 * p.tCCD_S
    ensures HitGap(p, w0, w1) >= p.tCCD_S
  {
  }

  lemma GapToLast(p: Params, tr: seq<Cmd>, m: nat, j: nat)
    requires p.TimingsOk() && LongIsLonger(p) && Legal(p, tr) && m < j < |tr| && tr[m].Col? && tr[j].Col? &&
             LastOf(tr[..j], false) == [tr[m]]
    ensures tr[m].at + HitGap(p, tr[m].write, tr[j].write) <= tr[j].at
    ensures tr[m].at + (if tr[m].bg == tr[j].bg then p.tCCD_L else p.tCCD_S) <= tr[j].at
  {
    EveryPairSpaced(p, tr, m, j);
    LegalAt(p, tr, m);
    LegalAt(p, tr, j);
  }

  /** By this time the reads that opened two rows, and all that follows from them, are over. */
  function QuietAt(p: Params): int
    requires p.mtps > 0
  {
    p.tRCD + 2 * (p.tRRD_S + p.tCCD_S + p.BurstPs()) + p.tRL + p.tRTW
  }

  /** Timings do not reach from "never" to time 0, and five bursts come before a refresh. */
  ghost predicate RoomForFive(p: Params)
    requires p.mtps > 0
  {
    && NEVER + p.tRC <= 0 && NEVER + p.tCCD_S <= 0
    && (p.tREFI > 0 ==> QuietAt(p) + LeastTwoGaps(p) < p.tREFI)
  }

  /** A row opened in each of two groups, and later three row hits, in the first, the second and the first. */
  function CloseColumns(p: Params, w0: bool, w1: bool, w2: bool): seq<Request>
    requires p.mtps > 0
  {
    var t := QuietAt(p);
    [Request(ONE, 0, false), Request(OTHER, 0, false), Request(ONE, t, w0), Request(OTHER, t, w1), Request(ONE, t, w2)]
  }

  /**
    Comparing with the last column command is enough for every pair, in every run, exactly if there
    is one bank group or tCCD_L is no more than two gaps between row hits of different groups take.
   */
  lemma ColumnSpacingIff(p: Params)
    requires Runnable(p) && LongIsLonger(p) && RoomForFive(p)
    ensures p.bankgroups == 1 || p.tCCD_L <= LeastTwoGaps(p) <==>
            forall reqs: seq<Request>, lines: seq<Line> :: IsRun(p, reqs, lines) ==> ColsSpread(p, lines[|reqs|].tr)
  {
    if p.bankgroups == 1 || p.tCCD_L <= LeastTwoGaps(p) {
      hide LeastTwoGaps;
      forall reqs: seq<Request>, lines: seq<Line> | IsRun(p, reqs, lines) ensures ColsSpread(p, lines[|reqs|].tr) {
        ColumnsKeepApart(p, reqs, lines);
      }
    } else {
      var w0, w1, w2 := LeastKinds(p);
      hide ColsSpread, LeastTwoGaps, Follows, TwoGaps;
      var lines := CloseColumnsRun(p, w0, w1, w2);
      assert !ColsSpread(p, lines[|CloseColumns(p, w0, w1, w2)|].tr);
    }
  }

  lemma LeastKinds(p: Params) returns (w0: bool, w1: bool, w2: bool)
    requires p.mtps > 0
    ensures TwoGaps(p, w0, w1, w2) == LeastTwoGaps(p)
  {
    hide TwoGaps;
    w0 :| LeastOf(p, w0) == LeastTwoGaps(p);
    w1, w2 :| TwoGaps(p, w0, w1, w2) == LeastOf(p, w0);
  }

  lemma ColumnsKeepApart(p: Params, reqs: seq<Request>, lines: seq<Line>)
    requires Runnable(p) && LongIsLonger(p) && IsRun(p, reqs, lines) &&
             (p.bankgroups == 1 || p.tCCD_L <= LeastTwoGaps(p))
    ensures ColsSpread(p, lines[|reqs|].tr)
  {
    RunSound(p, reqs, lines, |reqs|);
    if p.bankgroups == 1 { RunNamesOneGroup(p, reqs, lines, |reqs|); }
    var tr := lines[|reqs|].tr;
    assert Legal(p, tr) && p.TimingsOk();
    hide Sound, Shaped, Legal, Runnable, LeastTwoGaps, LongIsLonger, IsRun;
    forall i, j | 0 <= i < j < |tr| && tr[i].Col? && tr[j].Col?
      ensures tr[i].at + (if tr[i].bg == tr[j].bg then p.tCCD_L else p.tCCD_S) <= tr[j].at
    {
      ColumnsApart(p, tr, i, j);
    }
  }

  predicate RowHot(p: Params, c: Channel, b: nat, col: int)
  {
    b < |c.banks| && c.banks[b].openRow == 0 && c.banks[b].act + p.tRCD <= col
  }

  /** Row 0 is open in bank 0 of the first two groups; the last burst was of group `bg`, at `col`. */
  ghost predicate Hot(p: Params, s: Line, bg: nat, w: bool, col: int)
    requires p.mtps > 0
  {
    var c := s.c;
    && Shaped(p, c) && p.ranks == 1 && c.nextRefresh == p.tREFI && 0 <= c.order <= c.lastCol == col
    && c.lastColRank == 0 && c.lastColBg == bg && c.lastWasWrite == w && c.busFree == col + Latency(p, w) + p.BurstPs()
    && (w ==> c.lastWriteEnd == c.busFree)
    && RowHot(p, c, 0, col) && RowHot(p, c, p.banks, col)
    && s.tr != [] && s.tr[|s.tr| - 1].Col? && s.tr[|s.tr| - 1].at == col && s.tr[|s.tr| - 1].bg == bg
  }

  lemma OpenedIsHot(p: Params, s: Line, rest: set<nat>, used: set<nat>)
    requires Runnable(p) && Opened(p, s, 2, 1, rest, used) && 0 in used && p.banks in used
    ensures Hot(p, s, 1, false, s.c.lastCol) && s.c.lastCol + HitGap(p, false, false) <= QuietAt(p) &&
            s.c.lastCol + HitGap(p, false, true) <= QuietAt(p)
  {
  }

  ghost predicate OneLonger(tr: seq<Cmd>, tr': seq<Cmd>) { |tr'| == |tr| + 1 && tr'[..|tr|] == tr }

  /** One more row hit, in the other group. */
  lemma NextHit(p: Params, s: Line, bg: nat, w: bool, col: int, g: nat, arrive: int, w': bool, col': int)
    returns (s': Line)
    requires Runnable(p) && g < p.bankgroups && Hot(p, s, bg, w, col) && g <= 1 && g != bg && 0 <= arrive &&
             col' == Max(arrive, col + HitGap(p, w, w'))
    requires p.tREFI > 0 ==> col' < p.tREFI
    ensures Follows(p, s, Request(Coord(0, 0, g, 0, 0, 0), arrive, w'), s') && Hot(p, s', g, w', col') &&
            OneLonger(s.tr, s'.tr)
  {
    var k := Coord(0, 0, g, 0, 0, 0);
    BanksThere(p);
    BankInRange(p, k);
    assert BankOf(p, k) == if g == 0 then 0 else p.banks;
    HitPlan(p, s, bg, w, col, k, arrive, w');
    GapsAreTwo(p, w, w', w');
    var pl := PlanOf(p, s.c, k, Max(arrive, s.c.order), w');
    hide PlanOf, HitGap, Params.BurstPs, BankOf;
    UndisturbedBurst(p, s, k, arrive, w');
    s' := Burst(p, s, k, arrive, w');
    hide Burst, BurstPlan, Commit;
    HitCommit(p, s, bg, w, col, pl, w', col');
  }

  lemma HitPlan(p: Params, s: Line, bg: nat, w: bool, col: int, k: Coord, arrive: int, w': bool)
    requires Runnable(p) && Hot(p, s, bg, w, col) && k == Coord(0, 0, k.bg, 0, 0, 0) && InRange(p, k) && k.bg != bg &&
             0 <= arrive
    requires BankOf(p, k) < |s.c.banks| && (BankOf(p, k) == 0 || BankOf(p, k) == p.banks)
    ensures var pl := PlanOf(p, s.c, k, Max(arrive, s.c.order), w');
            && pl.kind.Hit? && pl.col == Max(arrive, col + HitGap(p, w, w')) &&
               pl.end == pl.col + Latency(p, w') + p.BurstPs()
            && 0 <= pl.firstCmd && Max(arrive, s.c.order) <= pl.col
  {
    hide BankOf, Params.BurstPs;
  }

  lemma HitCommit(p: Params, s: Line, bg: nat, w: bool, col: int, pl: Plan, w': bool, col': int)
    requires p.mtps > 0 && Hot(p, s, bg, w, col) && InRange(p, pl.k) && pl.bank == BankOf(p, pl.k) && pl.k.ra == 0
    requires pl.kind.Hit? && pl.col == col' >= col && pl.end == col' + Latency(p, w') + p.BurstPs() && 0 <= pl.firstCmd
    ensures Hot(p, Commit(p, s, pl, w'), pl.k.bg, w', col') && OneLonger(s.tr, Commit(p, s, pl, w').tr)
  {
    BankInRange(p, pl.k);
    hide BankOf, Params.BurstPs;
    assert CommandsOf(pl, w') == [ColOf(pl, w')];
    var c' := CommitOf(p, s.c, pl, w');
    assert RowHot(p, c', 0, col') && RowHot(p, c', p.banks, col');
  }

  lemma RoomIsEnough(p: Params)
    requires p.TimingsOk() && RoomForFive(p)
    ensures RoomForThree(p)
  {
    GapsAreTwo(p, false, false, false);
  }

  lemma GapFacts(p: Params, w0: bool, w1: bool, w2: bool)
    requires Runnable(p) && RoomForFive(p) && TwoGaps(p, w0, w1, w2) == LeastTwoGaps(p)
    ensures RoomForThree(p) && 0 <= QuietAt(p) && HitGap(p, w0, w1) + HitGap(p, w1, w2) == LeastTwoGaps(p)
    ensures 0 <= HitGap(p, w0, w1) && 0 <= HitGap(p, w1, w2)
    ensures p.tREFI > 0 ==> QuietAt(p) + HitGap(p, w0, w1) + HitGap(p, w1, w2) < p.tREFI
  {
    RoomIsEnough(p);
    GapsAreTwo(p, w0, w1, w2);
    GapsAreTwo(p, w1, w2, w2);
    hide HitGap, LeastTwoGaps;
  }

  /** Two rows opened, and all quiet. */
  lemma HeatUp(p: Params, w: bool) returns (s1: Line, s2: Line, col: int)
    requires Runnable(p) && RoomForThree(p) && p.bankgroups >= 2
    ensures Follows(p, Line(FreshChannel(p), []), Request(ONE, 0, false), s1)
    ensures Follows(p, s1, Request(OTHER, 0, false), s2)
    ensures Hot(p, s2, 1, false, col) && Max(QuietAt(p), col + HitGap(p, false, w)) == QuietAt(p)
  {
    hide Opened, Hot, Follows, QuietAt, HitGap, RoomForThree, FreshChannel;
    s1 := FirstActivate(p, {p.banks});
    s2 := NextActivate(p, s1, 1, 0, {p.banks}, {0}, 1, 0);
    col := NowHot(p, s2, {p.banks} - {p.banks}, {0} + {p.banks}, w);
  }

  lemma RunOneMore(p: Params, reqs: seq<Request>, lines: seq<Line>, r: Request, s: Line)
    requires IsRun(p, reqs, lines) && Follows(p, lines[|reqs|], r, s)
    ensures IsRun(p, reqs + [r], lines + [s]) && (lines + [s])[|reqs| + 1] == s
  {
    hide Follows, FreshChannel;
  }

  /** The row hits land at `QuietAt` and one and two gaps later. */
  lemma CloseColumnsRun(p: Params, w0: bool, w1: bool, w2: bool) returns (lines: seq<Line>)
    requires Runnable(p) && RoomForFive(p) && p.bankgroups >= 2 && TwoGaps(p, w0, w1, w2) == LeastTwoGaps(p)
    ensures IsRun(p, CloseColumns(p, w0, w1, w2), lines)
    ensures p.tCCD_L > LeastTwoGaps(p) ==> !ColsSpread(p, lines[|CloseColumns(p, w0, w1, w2)|].tr)
  {
    GapFacts(p, w0, w1, w2);
    var t, g1, g2 := QuietAt(p), HitGap(p, w0, w1), HitGap(p, w1, w2);
    assert g1 + g2 == LeastTwoGaps(p);
    var s2, col;
    lines, s2, col := RunSoFar(p, w0);
    hide *;
    var s3, s4, s5 := HitsInTurn(p, s2, col, t, g1, g2, w0, w1, w2);
    lines := RunOn(p, lines, s3, s4, s5, t, w0, w1, w2);
  }

  lemma RunSoFar(p: Params, w: bool) returns (lines: seq<Line>, s2: Line, col: int)
    requires Runnable(p) && RoomForThree(p) && p.bankgroups >= 2
    ensures |lines| == 3 && lines[2] == s2 && IsRun(p, [Request(ONE, 0, false), Request(OTHER, 0, false)], lines)
    ensures Hot(p, s2, 1, false, col) && Max(QuietAt(p), col + HitGap(p, false, w)) == QuietAt(p)
  {
    var s1;
    s1, s2, col := HeatUp(p, w);
    hide Follows, FreshChannel, Hot, QuietAt, HitGap;
    lines := [Line(FreshChannel(p), []), s1, s2];
  }

  lemma RunOn(p: Params, was: seq<Line>, s3: Line, s4: Line, s5: Line, t: int, w0: bool, w1: bool, w2: bool)
    returns (lines: seq<Line>)
    requires p.mtps > 0 && t == QuietAt(p) && |was| == 3 &&
             IsRun(p, [Request(ONE, 0, false), Request(OTHER, 0, false)], was)
    requires Follows(p, was[2], Request(ONE, t, w0), s3) && Follows(p, s3, Request(OTHER, t, w1), s4) &&
             Follows(p, s4, Request(ONE, t, w2), s5)
    ensures |CloseColumns(p, w0, w1, w2)| == 5 && |lines| == 6 && lines[5] == s5 &&
            IsRun(p, CloseColumns(p, w0, w1, w2), lines)
  {
    var reqs := [Request(ONE, 0, false), Request(OTHER, 0, false)];
    assert CloseColumns(p, w0, w1, w2) == reqs + [Request(ONE, t, w0)] + [Request(OTHER, t, w1)] + [Request(ONE, t,
        w2)];
    hide Follows, IsRun, QuietAt, CloseColumns;
    RunOneMore(p, reqs, was, Request(ONE, t, w0), s3);
    RunOneMore(p, reqs + [Request(ONE, t, w0)], was + [s3], Request(OTHER, t, w1), s4);
    RunOneMore(p, reqs + [Request(ONE, t, w0)] + [Request(OTHER, t, w1)], was + [s3] + [s4], Request(ONE, t, w2), s5);
    lines := was + [s3] + [s4] + [s5];
  }

  lemma HitsInTurn(p: Params, s2: Line, col: int, t: int, g1: int, g2: int, w0: bool, w1: bool, w2: bool)
    returns (s3: Line, s4: Line, s5: Line)
    requires Runnable(p) && p.bankgroups >= 2 && Hot(p, s2, 1, false, col) &&
             Max(t, col + HitGap(p, false, w0)) == t >= 0
    requires g1 == HitGap(p, w0, w1) >= 0 && g2 == HitGap(p, w1, w2) >= 0 && (p.tREFI > 0 ==> t + g1 + g2 < p.tREFI)
    ensures Follows(p, s2, Request(ONE, t, w0), s3) && Follows(p, s3, Request(OTHER, t, w1), s4)
    ensures Follows(p, s4, Request(ONE, t, w2), s5)
    ensures g1 + g2 < p.tCCD_L ==> !ColsSpread(p, s5.tr)
  {
    assert Max(t, t + g1) == t + g1 && Max(t, t + g1 + g2) == t + g1 + g2 && p.mtps > 0;
    hide *;
    s3 := NextHit(p, s2, 1, false, col, 0, t, w0, t);
    s4 := NextHit(p, s3, 0, w0, t, 1, t, w1, t + g1);
    s5 := NextHit(p, s4, 1, w1, t + g1, 0, t, w2, t + g1 + g2);
    TwoTooClose(p, s3, s4, s5, w0, w2, t, t + g1 + g2);
  }

  /** With the two rows open, quiet from `QuietAt` on. */
  lemma NowHot(p: Params, s: Line, rest: set<nat>, used: set<nat>, w: bool) returns (col: int)
    requires Runnable(p) && Opened(p, s, 2, 1, rest, used) && 0 in used && p.banks in used
    ensures Hot(p, s, 1, false, col) && Max(QuietAt(p), col + HitGap(p, false, w)) == QuietAt(p)
  {
    col := s.c.lastCol;
    hide Opened, Hot, HitGap, QuietAt;
    OpenedIsHot(p, s, rest, used);
  }

  lemma TwoTooClose(p: Params, s3: Line, s4: Line, s: Line, w0: bool, w2: bool, t: int, t2: int)
    requires p.mtps > 0 && Hot(p, s3, 0, w0, t) && Hot(p, s, 0, w2, t2) && OneLonger(s3.tr, s4.tr) &&
             OneLonger(s4.tr, s.tr)
    ensures t2 < t + p.tCCD_L ==> !ColsSpread(p, s.tr)
  {
    var i := |s3.tr| - 1;
    assert s.tr[i] == s.tr[..|s4.tr|][i] == s4.tr[..|s3.tr|][i] == s3.tr[i];
    assert s.tr[i].Col? && s.tr[|s.tr| - 1].Col?;
  }
}
