/**
  One channel of the timing engine (`targets/hetero/dram_core.hpp`): the state it keeps per
  bank and per channel, and the three things it does with it -- plan a burst, commit a plan,
  run one refresh -- as functions on that state and on the command history they produce.
  The lemmas show that whatever the engine commits is a command the device allows.
 */
module DramChannel {
  import opened Arith
  import opened DramDevice
  import opened DramMapping

  /** INT64_MIN / 4: "never", far enough from zero that adding a timing does not reach it. */
  const NEVER: int := -0x2000_0000_0000_0000

  /** `openRow` is -1 when the bank is precharged. */
  datatype Bank = Bank(openRow: int, act: int, actOk: int, preOk: int)

  datatype Channel = Channel(
    banks: seq<Bank>, order: int, busFree: int,
    lastCol: int, lastColRank: int, lastColBg: int, lastWasWrite: bool, lastWriteEnd: int,
    lastAct: int, lastActRank: int, lastActBg: int,
    faw: seq<seq<int>>, nextRefresh: int)

  datatype RowKind = Hit | Miss | Conflict

  /** `pre` is the PRECHARGE, sent on a row conflict only. */
  datatype Plan = Plan(k: Coord, bank: nat, kind: RowKind, pre: int, act: int, firstCmd: int, col: int, end: int)

  /** A channel together with the commands it has been sent. */
  datatype Line = Line(c: Channel, tr: seq<Cmd>)

  function FreshBank(): Bank { Bank(-1, NEVER, 0, 0) }

  function FreshChannel(p: Params): Channel {
    Channel(seq(p.NumBanks(), _ => FreshBank()), 0, 0, NEVER, -1, -1, false, NEVER,
            NEVER, -1, -1, seq(p.ranks, _ => []), p.tREFI)
  }

  ghost predicate InRange(p: Params, k: Coord) {
    k.ra < p.ranks && k.bg < p.bankgroups && k.ba < p.banks
  }

  function BankOf(p: Params, k: Coord): nat { (k.ra * p.bankgroups + k.bg) * p.banks + k.ba }

  ghost predicate Shaped(p: Params, c: Channel) {
    |c.banks| == p.NumBanks() && |c.faw| == p.ranks
  }

  lemma BankInRange(p: Params, k: Coord)
    requires InRange(p, k)
    ensures BankOf(p, k) < p.NumBanks()
  {
    var group := k.ra * p.bankgroups + k.bg;
    MulStep(k.ra, p.ranks, p.bankgroups);
    MulStep(group, p.ranks * p.bankgroups, p.banks);
  }

  /* ---- Planning and committing one burst ---- */

  /** Earliest ACT on a bank that does not hold the row (`from`: when the bank is precharged). */
  function EarliestAct(p: Params, c: Channel, k: Coord, b: Bank, from: int): int
    requires Shaped(p, c) && InRange(p, k)
  {
    var own := Max(from, Max(b.actOk, b.act + p.tRC));
    var spaced := if c.lastActRank == k.ra
                  then Max(own, c.lastAct + (if c.lastActBg == k.bg then p.tRRD_L else p.tRRD_S))
                  else own;
    if |c.faw[k.ra]| == 4 then Max(spaced, c.faw[k.ra][0] + p.tFAW) else spaced
  }

  /** Earliest column command from `from` on: ordering, bank-group spacing, bus turnarounds, bus slot. */
  function EarliestCol(p: Params, c: Channel, k: Coord, from: int, w: bool): int {
    var sameBg := c.lastColRank == k.ra && c.lastColBg == k.bg;
    var spaced := Max(from, c.lastCol + (if sameBg then p.tCCD_L else p.tCCD_S));
    var toRead := if !w && c.lastWasWrite
                  then Max(spaced, c.lastWriteEnd + (if sameBg then p.tWTR_L else p.tWTR_S)) else spaced;
    var toWrite := if w && !c.lastWasWrite
                   then Max(toRead, c.lastCol + (if sameBg && p.tRTW_L != 0 then p.tRTW_L else p.tRTW)) else toRead;
    Max(toWrite + Latency(p, w), c.busFree) - Latency(p, w)
  }

  function PlanOf(p: Params, c: Channel, k: Coord, t: int, w: bool): (pl: Plan)
    requires Shaped(p, c) && InRange(p, k) && p.mtps > 0
    ensures pl.k == k && pl.bank == BankOf(p, k) < |c.banks|
  {
    BankInRange(p, k);
    var bank := BankOf(p, k);
    var b := c.banks[bank];
    if b.openRow == k.row then
      var from := Max(t, b.act + p.tRCD);
      var col := EarliestCol(p, c, k, from, w);
      Plan(k, bank, Hit, 0, b.act, from, col, col + Latency(p, w) + p.BurstPs())
    else if b.openRow >= 0 then
      var pre := Max(t, Max(b.act + p.tRAS, b.preOk));
      var act := EarliestAct(p, c, k, b, pre + p.tRP);
      var col := EarliestCol(p, c, k, act + p.tRCD, w);
      Plan(k, bank, Conflict, pre, act, if pre < 0 then act else pre, col, col + Latency(p, w) + p.BurstPs())
    else
      var act := EarliestAct(p, c, k, b, t);
      var col := EarliestCol(p, c, k, act + p.tRCD, w);
      Plan(k, bank, Miss, 0, act, act, col, col + Latency(p, w) + p.BurstPs())
  }

  /** The channel state after a plan is committed. */
  function CommitOf(p: Params, c: Channel, pl: Plan, w: bool): Channel
    requires Shaped(p, c) && InRange(p, pl.k) && pl.bank == BankOf(p, pl.k)
  {
    BankInRange(p, pl.k);
    var b := c.banks[pl.bank];
    var woken := if pl.kind.Hit? then b else b.(openRow := pl.k.row, act := pl.act);
    var b' := woken.(preOk := Max(b.preOk, if w then pl.end + p.tCK + p.tWR else pl.col + p.tRTP));
    var old4 := c.faw[pl.k.ra];
    var c1 := if pl.kind.Hit? then c
              else c.(faw := c.faw[pl.k.ra := (if |old4| == 4 then old4[1..] else old4) + [pl.act]],
                      lastAct := pl.act, lastActRank := pl.k.ra, lastActBg := pl.k.bg);
    c1.(banks := c.banks[pl.bank := b'],
        busFree := pl.end, lastCol := pl.col, lastColRank := pl.k.ra, lastColBg := pl.k.bg,
        lastWasWrite := w, lastWriteEnd := if w then pl.end else c.lastWriteEnd,
        order := if pl.firstCmd < pl.col then pl.firstCmd else pl.col)
  }

  /** The commands a committed plan sends, in order. */
  function CommandsOf(pl: Plan, w: bool): seq<Cmd> {
    PreOf(pl) + ActOf(pl) + [ColOf(pl, w)]
  }

  function Commit(p: Params, s: Line, pl: Plan, w: bool): Line
    requires Shaped(p, s.c) && InRange(p, pl.k) && pl.bank == BankOf(p, pl.k)
  {
    Line(CommitOf(p, s.c, pl, w), s.tr + CommandsOf(pl, w))
  }

  /* ---- One refresh ---- */

  /** When the banks let a refresh start that is due, with the bus free, at `start`. */
  function StartOver(p: Params, banks: seq<Bank>, start: int): int {
    if banks == [] then start
    else
      var b := banks[|banks| - 1];
      var s := StartOver(p, banks[..|banks| - 1], start);
      Max(if b.openRow >= 0 then Max(s, Max(b.act + p.tRAS, b.preOk)) else s, b.actOk)
  }

  predicate AnyOpen(banks: seq<Bank>) { exists i :: 0 <= i < |banks| && banks[i].openRow >= 0 }

  function Closing(b: Bank, end: int): Bank { b.(openRow := -1, actOk := Max(b.actOk, end)) }

  function CloseAll(banks: seq<Bank>, end: int): (r: seq<Bank>)
    ensures |r| == |banks| && forall i :: 0 <= i < |r| ==> r[i] == Closing(banks[i], end)
  {
    seq(|banks|, i requires 0 <= i < |banks| => Closing(banks[i], end))
  }

  /** When all banks may be precharged, or the refresh started if none is open. */
  function ReadyAt(p: Params, c: Channel): int { StartOver(p, c.banks, Max(c.nextRefresh, c.busFree)) }

  function RefStart(p: Params, c: Channel): int {
    if AnyOpen(c.banks) then ReadyAt(p, c) + p.tRPab else ReadyAt(p, c)
  }

  function PreAllOf(p: Params, c: Channel): seq<Cmd> {
    if AnyOpen(c.banks) then [PreAll(ReadyAt(p, c))] else []
  }

  function RefOf(p: Params, c: Channel): (r: Cmd)
    ensures r.Ref? && r.due == c.nextRefresh
  {
    Ref(RefStart(p, c), RefStart(p, c) + p.tRFC, c.nextRefresh)
  }

  /** All-bank precharge, if a row is open, and the refresh due at `nextRefresh`. */
  function RefreshOne(p: Params, s: Line): Line {
    Line(s.c.(banks := CloseAll(s.c.banks, RefStart(p, s.c) + p.tRFC), nextRefresh := s.c.nextRefresh + p.tREFI),
         s.tr + PreAllOf(p, s.c) + [RefOf(p, s.c)])
  }

  lemma {:induction false} StartOverBounds(p: Params, banks: seq<Bank>, start: int, i: nat)
    requires i <= |banks|
    ensures start <= StartOver(p, banks, start)
    ensures i < |banks| ==>
              && banks[i].actOk <= StartOver(p, banks, start)
              && (banks[i].openRow >= 0 ==>
                    && banks[i].act + p.tRAS <= StartOver(p, banks, start)
                    && banks[i].preOk <= StartOver(p, banks, start))
  {
    if banks != [] {
      StartOverBounds(p, banks[..|banks| - 1], start, if i < |banks| - 1 then i else 0);
    }
  }

  /** Closed banks that are ready by `start` do not delay it. */
  lemma {:induction false} StartOverQuiet(p: Params, banks: seq<Bank>, start: int)
    requires forall i :: 0 <= i < |banks| ==> banks[i].openRow < 0 && banks[i].actOk <= start
    ensures StartOver(p, banks, start) == start
  {
    if banks != [] {
      StartOverQuiet(p, banks[..|banks| - 1], start);
    }
  }

  /* ---- What the state remembers of the history ---- */

  /** What one bank's fields still know about an earlier command. */
  predicate Remembers(p: Params, b: Bank, bank: nat, e: Cmd) {
    match e
    case Act(t, _, bk, _) => bk == bank ==> t <= b.act
    case Pre(t, bk) => bk == bank ==> t + p.tRP <= b.act
    case Col(_, _, bk, _, _, _) => bk == bank ==> Recovery(p, e) <= b.preOk
    case PreAll(t) => t + p.tRPab <= b.actOk
    case Ref(_, end, _) => end <= b.actOk && (b.openRow >= 0 ==> end <= b.act)
  }

  ghost predicate BankTracks(p: Params, b: Bank, bank: nat, h: seq<Cmd>) {
    && RowOf(h, bank) == (if b.openRow >= 0 then Open(b.openRow, b.act) else Closed)
    && b.openRow >= -1
    && 0 <= b.actOk
    && (b.openRow < 0 ==> b.act <= b.actOk && b.preOk <= b.actOk)
    && (forall e :: e in h ==> Remembers(p, b, bank, e))
  }

  ghost predicate BanksTrack(p: Params, banks: seq<Bank>, h: seq<Cmd>) {
    && |banks| == p.NumBanks()
    && (forall b: nat :: b < |banks| ==> BankTracks(p, banks[b], b, h))
    && (forall b: nat :: b >= |banks| ==> RowOf(h, b).Closed?)
    && (forall e :: e in h && (e.Act? || e.Col?) ==> e.bank < |banks|)
  }

  /** What the channel's own fields say. */
  ghost predicate BusTracks(c: Channel, h: seq<Cmd>) {
    && (LastOf(h, true) == [] ==> c.lastActRank == -1)
    && (LastOf(h, true) != [] ==>
          c.lastActRank == 0 && LastOf(h, true)[0].at == c.lastAct && LastOf(h, true)[0].bg == c.lastActBg)
    && (LastOf(h, false) == [] ==> c.lastColRank == -1 && !c.lastWasWrite)
    && (LastOf(h, false) != [] ==>
          var last := LastOf(h, false)[0];
          && c.lastColRank == 0 && last.at == c.lastCol && last.bg == c.lastColBg
          && last.write == c.lastWasWrite && (last.write ==> last.end == c.lastWriteEnd))
    && (forall e :: e in h && e.Col? ==> e.end <= c.busFree)
  }

  /** The four-activate window holds the last four ACTs of the history. */
  ghost predicate FawTracks(c: Channel, h: seq<Cmd>) {
    && |c.faw| == 1
    && (var acts := ActTimes(h);
        c.faw[0] == if |acts| <= 4 then acts else acts[|acts| - 4..])
  }

  ghost predicate Tracks(p: Params, s: Line) {
    && p.ranks == 1 && p.NumBanks() > 0
    && BanksTrack(p, s.c.banks, s.tr)
    && BusTracks(s.c, s.tr)
    && FawTracks(s.c, s.tr)
    && s.c.nextRefresh == (RefCount(s.tr) + 1) * p.tREFI
  }

  /* ---- And where what it remembers comes from ---- */

  ghost predicate RefreshedTill(h: seq<Cmd>, t: int) { exists e :: e in h && e.Ref? && e.end == t }

  ghost predicate RecoveredAt(p: Params, h: seq<Cmd>, bank: nat, t: int) {
    exists e :: e in h && e.Col? && e.bank == bank && Recovery(p, e) == t
  }

  ghost predicate OpenedAt(h: seq<Cmd>, bank: nat, t: int) {
    exists e :: e in h && e.Act? && e.bank == bank && e.at == t
  }

  ghost predicate DataTill(h: seq<Cmd>, t: int) { exists e :: e in h && e.Col? && e.end == t }

  /** A bank's fields hold nothing back that no command asks for. */
  ghost predicate BankRecalls(p: Params, b: Bank, bank: nat, h: seq<Cmd>) {
    && (b.actOk == 0 || RefreshedTill(h, b.actOk))
    && (b.preOk == 0 || RecoveredAt(p, h, bank, b.preOk))
    && (b.act == NEVER || OpenedAt(h, bank, b.act))
  }

  ghost predicate BusRecalls(c: Channel, h: seq<Cmd>) {
    && (c.busFree == 0 || DataTill(h, c.busFree))
    && (LastOf(h, false) == [] ==> c.lastCol == NEVER)
  }

  ghost predicate Recalls(p: Params, s: Line) {
    (forall b: nat :: b < |s.c.banks| ==> BankRecalls(p, s.c.banks[b], b, s.tr)) && BusRecalls(s.c, s.tr)
  }

  /** More history does not take a reason away. */
  lemma StillRecalls(p: Params, b: Bank, bank: nat, h: seq<Cmd>, h': seq<Cmd>)
    requires BankRecalls(p, b, bank, h) && h <= h'
    ensures BankRecalls(p, b, bank, h')
  {
    if b.actOk != 0 {
      var e :| e in h && e.Ref? && e.end == b.actOk;
      assert e in h';
    }
    if b.preOk != 0 {
      var e :| e in h && e.Col? && e.bank == bank && Recovery(p, e) == b.preOk;
      assert e in h';
    }
    if b.act != NEVER {
      var e :| e in h && e.Act? && e.bank == bank && e.at == b.act;
      assert e in h';
    }
  }

  /**
    The whole invariant of a channel: a legal history, and a state that summarises it: what it must
    remember, and nothing else.
   */
  ghost predicate Sound(p: Params, s: Line) {
    p.TimingsOk() && Legal(p, s.tr) && Tracks(p, s) && Recalls(p, s)
  }

  lemma FreshIsSound(p: Params)
    requires p.TimingsOk() && p.ranks == 1 && p.NumBanks() > 0
    ensures Sound(p, Line(FreshChannel(p), []))
  {
  }

  /* ---- Committing a plan keeps the history legal ---- */

  /** Other banks do not notice a burst. */
  lemma BankTracksBurst(p: Params, b: Bank, bank: nat, h: seq<Cmd>, pl: Plan, w: bool)
    requires BankTracks(p, b, bank, h) && bank != pl.bank
    ensures BankTracks(p, b, bank, h + CommandsOf(pl, w))
  {
    AcrossBurst(h, pl, w, bank);
    hide RowOf, LastOf, ActTimes, RefCount, CommandsOf;
    forall e | e in h + CommandsOf(pl, w) ensures Remembers(p, b, bank, e) {
      if e in CommandsOf(pl, w) { ToOwnBank(pl, w, e); }
    }
  }

  /** All commands of a burst go to its own bank. */
  lemma ToOwnBank(pl: Plan, w: bool, e: Cmd)
    requires e in CommandsOf(pl, w)
    ensures (pl.kind.Conflict? && e == Pre(pl.pre, pl.bank)) || (!pl.kind.Hit? && [e] == ActOf(pl)) || e == ColOf(pl, w)
  {
  }

  /** What the code's maxima guarantee about a plan, bank by bank ... */
  ghost predicate FitsBank(p: Params, b: Bank, pl: Plan) {
    && (pl.kind.Hit? <==> b.openRow == pl.k.row)
    && (pl.kind.Conflict? <==> b.openRow >= 0 && b.openRow != pl.k.row)
    && (pl.kind.Hit? ==> pl.act == b.act)
    && (pl.kind.Conflict? ==> b.act + p.tRAS <= pl.pre && b.preOk <= pl.pre && pl.pre + p.tRP <= pl.act)
    && (!pl.kind.Hit? ==> b.actOk <= pl.act && b.act + p.tRC <= pl.act && b.act <= pl.act)
    && pl.act + p.tRCD <= pl.col
  }

  /** ... for the ACT against the rest of the channel ... */
  ghost predicate FitsAct(p: Params, c: Channel, pl: Plan) {
    && |c.faw| == 1
    && (!pl.kind.Hit? ==>
          && (c.lastActRank == 0 ==> c.lastAct + (if c.lastActBg == pl.k.bg then p.tRRD_L else p.tRRD_S) <= pl.act)
          && (|c.faw[0]| == 4 ==> c.faw[0][0] + p.tFAW <= pl.act))
  }

  /** ... and for the column command against the bus. */
  ghost predicate FitsCol(p: Params, c: Channel, pl: Plan, w: bool)
    requires p.mtps > 0
  {
    var sameBg := c.lastColRank == 0 && c.lastColBg == pl.k.bg;
    && c.busFree <= pl.col + Latency(p, w)
    && pl.end == pl.col + Latency(p, w) + p.BurstPs()
    && c.lastCol + (if sameBg then p.tCCD_L else p.tCCD_S) <= pl.col
    && (!w && c.lastWasWrite ==> c.lastWriteEnd + (if sameBg then p.tWTR_L else p.tWTR_S) <= pl.col)
    && (w && !c.lastWasWrite ==> c.lastCol + (if sameBg && p.tRTW_L != 0 then p.tRTW_L else p.tRTW) <= pl.col)
  }

  lemma PlanFits(p: Params, c: Channel, k: Coord, t: int, w: bool)
    requires p.TimingsOk() && p.ranks == 1 && Shaped(p, c) && InRange(p, k)
    ensures var pl := PlanOf(p, c, k, t, w);
            && FitsBank(p, c.banks[pl.bank], pl) && FitsAct(p, c, pl) && FitsCol(p, c, pl, w)
            && t <= pl.col && (!pl.kind.Hit? ==> t <= pl.act) && (pl.kind.Conflict? ==> t <= pl.pre)
  {
  }

  function PreOf(pl: Plan): seq<Cmd> { if pl.kind.Conflict? then [Pre(pl.pre, pl.bank)] else [] }

  function ActOf(pl: Plan): seq<Cmd> {
    if pl.kind.Hit? then [] else [Act(pl.act, pl.k.bg, pl.bank, pl.k.row)]
  }

  function ColOf(pl: Plan, w: bool): Cmd { Col(pl.col, pl.k.bg, pl.bank, pl.k.row, w, pl.end) }

  /** The history functions across the (at most one) PRE and ACT of a burst. */
  lemma AcrossPre(h: seq<Cmd>, pl: Plan, bank: nat)
    ensures var h1 := h + PreOf(pl);
            && RowOf(h1, bank) == (if pl.kind.Conflict? && bank == pl.bank then Closed else RowOf(h, bank))
            && LastOf(h1, true) == LastOf(h, true) && LastOf(h1, false) == LastOf(h, false)
            && ActTimes(h1) == ActTimes(h) && RefCount(h1) == RefCount(h)
  {
    if pl.kind.Conflict? {
      var pre := Pre(pl.pre, pl.bank);
      RowOfSnoc(h, pre, bank); LastOfSnoc(h, pre, true); LastOfSnoc(h, pre, false); CountsSnoc(h, pre);
    } else {
      assert h + PreOf(pl) == h;
    }
  }

  lemma AcrossAct(h: seq<Cmd>, pl: Plan, bank: nat)
    ensures var h1 := h + ActOf(pl);
            && RowOf(h1, bank) == (if !pl.kind.Hit? && bank == pl.bank then Open(pl.k.row, pl.act) else RowOf(h, bank))
            && LastOf(h1, true) == (if pl.kind.Hit? then LastOf(h, true) else ActOf(pl))
            && LastOf(h1, false) == LastOf(h, false)
            && ActTimes(h1) == (if pl.kind.Hit? then ActTimes(h) else ActTimes(h) + [pl.act])
            && RefCount(h1) == RefCount(h)
  {
    if pl.kind.Hit? {
      assert h + ActOf(pl) == h;
    } else {
      var act := Act(pl.act, pl.k.bg, pl.bank, pl.k.row);
      RowOfSnoc(h, act, bank); LastOfSnoc(h, act, true); LastOfSnoc(h, act, false); CountsSnoc(h, act);
    }
  }

  lemma AcrossCol(h: seq<Cmd>, pl: Plan, w: bool, bank: nat)
    ensures var h1 := h + [ColOf(pl, w)];
            && RowOf(h1, bank) == RowOf(h, bank)
            && LastOf(h1, true) == LastOf(h, true) && LastOf(h1, false) == [ColOf(pl, w)]
            && ActTimes(h1) == ActTimes(h) && RefCount(h1) == RefCount(h)
  {
    var col := ColOf(pl, w);
    RowOfSnoc(h, col, bank); LastOfSnoc(h, col, true); LastOfSnoc(h, col, false); CountsSnoc(h, col);
  }

  /** The history functions across a whole burst. */
  lemma AcrossBurst(h: seq<Cmd>, pl: Plan, w: bool, bank: nat)
    ensures var h3 := h + CommandsOf(pl, w);
            && h3 == h + PreOf(pl) + ActOf(pl) + [ColOf(pl, w)]
            && RowOf(h3, bank) == (if !pl.kind.Hit? && bank == pl.bank then Open(pl.k.row, pl.act) else RowOf(h, bank))
            && LastOf(h3, true) == (if pl.kind.Hit? then LastOf(h, true) else ActOf(pl))
            && LastOf(h3, false) == [ColOf(pl, w)]
            && ActTimes(h3) == (if pl.kind.Hit? then ActTimes(h) else ActTimes(h) + [pl.act])
            && RefCount(h3) == RefCount(h)
  {
    hide RowOf, LastOf, ActTimes, RefCount, PreOf, ActOf, ColOf;
    var h1 := h + PreOf(pl);
    var h2 := h1 + ActOf(pl);
    AcrossPre(h, pl, bank);
    AcrossAct(h1, pl, bank);
    AcrossCol(h2, pl, w, bank);
    assert h + CommandsOf(pl, w) == h2 + [ColOf(pl, w)];
  }

  lemma PreIsAllowed(p: Params, b: Bank, h: seq<Cmd>, pl: Plan)
    requires p.mtps > 0 && BankTracks(p, b, pl.bank, h) && FitsBank(p, b, pl) && pl.kind.Conflict?
    ensures Allowed(p, h, Pre(pl.pre, pl.bank))
  {
    forall e | e in h ensures Spaced(p, e, Pre(pl.pre, pl.bank)) {
      assert Remembers(p, b, pl.bank, e);
    }
  }

  lemma ActIsAllowed(p: Params, c: Channel, b: Bank, h: seq<Cmd>, pl: Plan)
    requires p.TimingsOk() && BankTracks(p, b, pl.bank, h) && FitsBank(p, b, pl)
    requires BusTracks(c, h) && FawTracks(c, h) && FitsAct(p, c, pl)
    requires !pl.kind.Hit?
    ensures Allowed(p, h + PreOf(pl), Act(pl.act, pl.k.bg, pl.bank, pl.k.row))
  {
    AcrossPre(h, pl, pl.bank);
    var act := Act(pl.act, pl.k.bg, pl.bank, pl.k.row);
    forall e | e in h + PreOf(pl) ensures Spaced(p, e, act) {
      if e in h { assert Remembers(p, b, pl.bank, e); }
    }
  }

  lemma ColIsAllowed(p: Params, c: Channel, b: Bank, h: seq<Cmd>, pl: Plan, w: bool)
    requires p.TimingsOk() && BankTracks(p, b, pl.bank, h) && FitsBank(p, b, pl)
    requires BusTracks(c, h) && FitsCol(p, c, pl, w)
    ensures Allowed(p, h + PreOf(pl) + ActOf(pl), ColOf(pl, w))
  {
    var h1 := h + PreOf(pl);
    AcrossPre(h, pl, pl.bank);
    AcrossAct(h1, pl, pl.bank);
    forall e | e in h1 + ActOf(pl) ensures Spaced(p, e, ColOf(pl, w)) {
      if e in h { assert Remembers(p, b, pl.bank, e); }
    }
  }

  lemma LegalBurst(p: Params, c: Channel, b: Bank, h: seq<Cmd>, pl: Plan, w: bool)
    requires p.TimingsOk() && Legal(p, h)
    requires BankTracks(p, b, pl.bank, h) && BusTracks(c, h) && FawTracks(c, h)
    requires FitsBank(p, b, pl) && FitsAct(p, c, pl) && FitsCol(p, c, pl, w)
    ensures Legal(p, h + CommandsOf(pl, w))
  {
    hide Legal, Allowed, BankTracks, BusTracks, FawTracks, FitsAct, FitsCol, FitsBank;
    var h1 := h + PreOf(pl);
    var h2 := h1 + ActOf(pl);
    assert Legal(p, h1) by {
      if pl.kind.Conflict? {
        PreIsAllowed(p, b, h, pl);
        LegalSnoc(p, h, Pre(pl.pre, pl.bank));
      } else {
        assert h1 == h;
      }
    }
    assert Legal(p, h2) by {
      if pl.kind.Hit? {
        assert h2 == h1;
      } else {
        ActIsAllowed(p, c, b, h, pl);
        LegalSnoc(p, h1, Act(pl.act, pl.k.bg, pl.bank, pl.k.row));
      }
    }
    ColIsAllowed(p, c, b, h, pl, w);
    LegalSnoc(p, h2, ColOf(pl, w));
    assert h + CommandsOf(pl, w) == h2 + [ColOf(pl, w)];
  }

  /** The bank the burst went to. */
  lemma BankTracksOwn(p: Params, b: Bank, b': Bank, h: seq<Cmd>, pl: Plan, w: bool)
    requires p.TimingsOk() && BankTracks(p, b, pl.bank, h) && FitsBank(p, b, pl)
    requires b' == (if pl.kind.Hit? then b else b.(openRow := pl.k.row, act := pl.act))
                   .(preOk := Max(b.preOk, Recovery(p, ColOf(pl, w))))
    ensures BankTracks(p, b', pl.bank, h + CommandsOf(pl, w))
  {
    AcrossBurst(h, pl, w, pl.bank);
    hide RowOf, LastOf, ActTimes, RefCount, CommandsOf;
    forall e | e in h + CommandsOf(pl, w) ensures Remembers(p, b', pl.bank, e) {
      if e in h { assert Remembers(p, b, pl.bank, e); } else { ToOwnBank(pl, w, e); }
    }
  }

  lemma BusTracksBurst(p: Params, c: Channel, c': Channel, h: seq<Cmd>, pl: Plan, w: bool)
    requires p.TimingsOk() && BusTracks(c, h) && FitsCol(p, c, pl, w) && pl.k.ra == 0
    requires c'.lastCol == pl.col && c'.lastColRank == 0 && c'.lastColBg == pl.k.bg && c'.lastWasWrite == w
    requires w ==> c'.lastWriteEnd == pl.end
    requires c'.busFree == pl.end
    requires if pl.kind.Hit? then c'.lastAct == c.lastAct && c'.lastActRank == c.lastActRank &&
             c'.lastActBg == c.lastActBg
             else c'.lastAct == pl.act && c'.lastActRank == 0 && c'.lastActBg == pl.k.bg
    ensures BusTracks(c', h + CommandsOf(pl, w))
  {
    AcrossBurst(h, pl, w, pl.bank);
  }

  /** Committing the planned burst sends only commands the device allows, and the state keeps tracking them. */
  lemma CommitSound(p: Params, s: Line, k: Coord, t: int, w: bool)
    requires Sound(p, s) && Shaped(p, s.c) && InRange(p, k)
    ensures var s' := Commit(p, s, PlanOf(p, s.c, k, t, w), w);
            Sound(p, s') && Shaped(p, s'.c)
  {
    var pl := PlanOf(p, s.c, k, t, w);
    PlanFits(p, s.c, k, t, w);
    CommitFits(p, s, pl, w);
  }

  /** The same for any plan that fits the channel. */
  lemma CommitFits(p: Params, s: Line, pl: Plan, w: bool)
    requires Sound(p, s) && Shaped(p, s.c) && InRange(p, pl.k) && pl.bank == BankOf(p, pl.k) < |s.c.banks|
    requires FitsBank(p, s.c.banks[pl.bank], pl) && FitsAct(p, s.c, pl) && FitsCol(p, s.c, pl, w)
    ensures Sound(p, Commit(p, s, pl, w)) && Shaped(p, CommitOf(p, s.c, pl, w))
  {
    hide Legal, BankTracks, BusTracks, FawTracks, CommandsOf, FitsBank, FitsAct, FitsCol, RefCount, BankRecalls,
         BusRecalls;
    var c', h3 := CommitOf(p, s.c, pl, w), s.tr + CommandsOf(pl, w);
    assert Legal(p, h3) by { LegalBurst(p, s.c, s.c.banks[pl.bank], s.tr, pl, w); }
    assert BusTracks(c', h3) by { BusTracksBurst(p, s.c, c', s.tr, pl, w); }
    assert BanksTrack(p, c'.banks, h3) by { CommitBanks(p, s, pl, w); }
    assert FawTracks(c', h3) && RefCount(h3) == RefCount(s.tr) by { FawTracksBurst(p, s, pl, w); }
    BurstRecalls(p, s, pl, w);
  }

  lemma BurstRecalls(p: Params, s: Line, pl: Plan, w: bool)
    requires p.mtps > 0 && Recalls(p, s) && Shaped(p, s.c) && InRange(p, pl.k)
    requires pl.bank == BankOf(p, pl.k) < |s.c.banks|
    ensures Recalls(p, Commit(p, s, pl, w))
  {
    hide BankRecalls, CommandsOf, LastOf, RowOf, ActTimes, RefCount;
    var c', h3 := CommitOf(p, s.c, pl, w), s.tr + CommandsOf(pl, w);
    AcrossBurst(s.tr, pl, w, pl.bank);
    ColSent(s.tr, pl, w);
    forall b: nat | b < |c'.banks| ensures BankRecalls(p, c'.banks[b], b, h3) {
      if b == pl.bank {
        OwnBankRecalls(p, s.c.banks[b], s.tr, pl, w);
      } else {
        StillRecalls(p, s.c.banks[b], b, s.tr, h3);
      }
    }
  }

  lemma ColSent(h: seq<Cmd>, pl: Plan, w: bool)
    ensures ColOf(pl, w) in h + CommandsOf(pl, w)
    ensures !pl.kind.Hit? ==> Act(pl.act, pl.k.bg, pl.bank, pl.k.row) in h + CommandsOf(pl, w)
  {
    var cmds := CommandsOf(pl, w);
    assert cmds[|cmds| - 1] == ColOf(pl, w);
    if !pl.kind.Hit? { assert cmds[|cmds| - 2] == ActOf(pl)[0]; }
  }

  lemma OwnBankRecalls(p: Params, b: Bank, h: seq<Cmd>, pl: Plan, w: bool)
    requires p.mtps > 0 && BankRecalls(p, b, pl.bank, h)
    ensures var woken := if pl.kind.Hit? then b else b.(openRow := pl.k.row, act := pl.act);
            BankRecalls(p, woken.(preOk := Max(b.preOk, if w then pl.end + p.tCK + p.tWR else pl.col + p.tRTP)),
                        pl.bank, h + CommandsOf(pl, w))
  {
    hide CommandsOf;
    StillRecalls(p, b, pl.bank, h, h + CommandsOf(pl, w));
    ColSent(h, pl, w);
    assert Recovery(p, ColOf(pl, w)) == if w then pl.end + p.tCK + p.tWR else pl.col + p.tRTP;
  }

  lemma FawTracksBurst(p: Params, s: Line, pl: Plan, w: bool)
    requires FawTracks(s.c, s.tr) && p.ranks == 1
    requires Shaped(p, s.c) && InRange(p, pl.k) && pl.bank == BankOf(p, pl.k)
    ensures FawTracks(CommitOf(p, s.c, pl, w), s.tr + CommandsOf(pl, w))
    ensures RefCount(s.tr + CommandsOf(pl, w)) == RefCount(s.tr)
  {
    hide RowOf, LastOf, ActTimes, RefCount, CommandsOf;
    AcrossBurst(s.tr, pl, w, pl.bank);
  }

  lemma CommitBanks(p: Params, s: Line, pl: Plan, w: bool)
    requires p.TimingsOk() && BanksTrack(p, s.c.banks, s.tr)
    requires Shaped(p, s.c) && InRange(p, pl.k) && pl.bank == BankOf(p, pl.k) < |s.c.banks|
    requires FitsBank(p, s.c.banks[pl.bank], pl)
    ensures BanksTrack(p, CommitOf(p, s.c, pl, w).banks, s.tr + CommandsOf(pl, w))
  {
    var banks', h3 := CommitOf(p, s.c, pl, w).banks, s.tr + CommandsOf(pl, w);
    forall b: nat | b < |banks'| ensures BankTracks(p, banks'[b], b, h3) {
      if b == pl.bank {
        BankTracksOwn(p, s.c.banks[b], banks'[b], s.tr, pl, w);
      } else {
        BankTracksBurst(p, s.c.banks[b], b, s.tr, pl, w);
      }
    }
    forall b: nat | b >= |banks'| ensures RowOf(h3, b).Closed? {
      AcrossBurst(s.tr, pl, w, b);
    }
  }
}
