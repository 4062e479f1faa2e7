/**
  The unloaded read (`nominal_read_ps`, `targets/hetero/dram_presets.py` and `dram_core.hpp`): what a
  fresh engine answers a read of one granule with is the closed form of the presets.
 */
module DramNominal {
  import opened Arith
  import opened DramDevice
  import opened DramMapping
  import opened DramChannel
  import opened DramBurst
  import opened DramPrompt
  import opened DramRequest
  import opened DramEngine

  /** Bursts of one granule. */
  function Bursts(p: Params): nat
    requires p.BurstBytes() > 0
  {
    DivNonNegative(AlignOf(p), p.BurstBytes());
    AlignOf(p) / p.BurstBytes()
  }

  /** From one burst to the next: row hits of one bank, or a new row in the next bank group. */
  function Step(p: Params): int
    requires p.mtps > 0
  {
    if p.bankgroups > 1 && |p.mapping| >= 2 && p.mapping[|p.mapping| - 2..] == "Bg"
    then Max(p.BurstPs(), Max(p.tCCD_S, p.tRRD_S)) else Max(p.BurstPs(), p.tCCD_L)
  }

  /** The closed form. */
  function NominalReadPs(p: Params): int
    requires p.mtps > 0 && p.BurstBytes() > 0
  {
    p.ctrlPs + p.tRCD + p.tRL + p.BurstPs() + (Max(1, Bursts(p)) - 1) * Step(p)
  }

  /** The lowest mapping field a granule's bursts fit in: columns of one page, or up to four bank groups. */
  ghost predicate FitsLowest(p: Params, fields: seq<Field>)
    requires p.BurstBytes() > 0
  {
    && fields != []
    && var low := fields[|fields| - 1].id;
       || (low.Co? && Bursts(p) <= p.pageBytes / p.BurstBytes())
       || (low.Bg? && Bursts(p) <= 4 && Bursts(p) <= p.bankgroups)
  }

  /** No refresh falls due before the last column command. */
  ghost predicate NoRefreshDue(p: Params)
    requires p.mtps > 0 && p.BurstBytes() > 0
  {
    p.tREFI > 0 ==> p.ctrlPs / 2 + p.tRCD + (Max(1, Bursts(p)) - 1) * Step(p) < p.tREFI
  }

  /** Where the closed form applies. */
  ghost predicate Applies(p: Params, fields: seq<Field>) {
    && Geometry(p, fields) && Runs(p) && p.channels == 1 && p.BurstBytes() > 1
    && FitsLowest(p, fields) && NoRefreshDue(p) && FarForReads(p)
  }

  /* ---- The bursts of a granule ---- */

  lemma {:induction false} PowersDivide(a: nat, b: nat)
    requires IsPow2(a) && IsPow2(b) && a <= b
    ensures b % a == 0
    decreases b
  {
    if a > 1 {
      PowersDivide(a / 2, b / 2);
      var q := (b / 2) / (a / 2);
      assert b / 2 == q * (a / 2);
      MultipleIs(b, a, q);
    }
  }

  lemma {:induction false} BurstsAre(a: nat, n: nat, bytes: nat)
    requires bytes > 1
    ensures |BurstsFrom(a, a + n * bytes - 1, bytes)| == n
    ensures forall i: nat :: i < n ==> BurstsFrom(a, a + n * bytes - 1, bytes)[i] == a + i * bytes
    decreases n
  {
    if n > 0 {
      Distribute(n - 1, 1, bytes);
      MulMono(0, n - 1, bytes);
      BurstsAre(a + bytes, n - 1, bytes);
      var rest := BurstsFrom(a + bytes, a + n * bytes - 1, bytes);
      forall i: nat | i < n ensures BurstsFrom(a, a + n * bytes - 1, bytes)[i] == a + i * bytes {
        if i > 0 { Distribute(i - 1, 1, bytes); assert rest[i - 1] == a + bytes + (i - 1) * bytes; }
      }
    }
  }

  /** A granule at address 0 is its bursts, one after the other. */
  lemma GranuleBursts(p: Params, fields: seq<Field>)
    requires Geometry(p, fields) && p.BurstBytes() > 1
    ensures AlignOf(p) > 0 && Bursts(p) >= 1
    ensures var bursts := BurstsFrom(SpanFirst(0, AlignOf(p)), SpanLast(0, Max(p.granule, 1), AlignOf(p)),
                                     p.BurstBytes());
            |bursts| == Bursts(p) && forall i: nat :: i < |bursts| ==> bursts[i] == i * p.BurstBytes()
  {
    var align, bytes, size := AlignOf(p), p.BurstBytes(), Max(p.granule, 1);
    assert bytes <= align && size <= align && IsPow2(bytes) && IsPow2(align);
    PowersDivide(bytes, align);
    SpanOfGranule(align, size);
    WholeBursts(align, bytes);
    hide Geometry, SpanFirst, SpanLast, AlignOf, Params.BurstBytes;
    BurstsAre(0, Bursts(p), bytes);
  }

  lemma SpanOfGranule(align: nat, size: nat)
    requires 0 < size <= align
    ensures SpanFirst(0, align) == 0 && SpanLast(0, size, align) == align - 1
  {
    Digits(0, align, 0, 0);
    Digits(size - 1, align, 0, size - 1);
  }

  lemma WholeBursts(align: nat, bytes: nat)
    requires bytes > 0 && align > 0 && align % bytes == 0
    ensures align / bytes >= 1 && align / bytes * bytes == align
  {
    DivNonNegative(align, bytes);
    if align / bytes == 0 { MulMono(0, 0, bytes); }
  }

  /** Burst i lies at the origin, but for the lowest field. */
  lemma LowestField(fields: seq<Field>, i: nat)
    requires fields != [] && Distinct(fields) && i < Pow2(fields[|fields| - 1].bits)
    ensures Decode(fields, i) == Put(ORIGIN, fields[|fields| - 1].id, i)
  {
    var f := fields[|fields| - 1];
    Digits(i, Pow2(f.bits), 0, i);
    forall id ensures Get(Put(ORIGIN, f.id, i), id) == 0 || !Carries(fields[..|fields| - 1], id) {
      if id == f.id { assert forall j :: 0 <= j < |fields| - 1 ==> fields[j].id != fields[|fields| - 1].id; }
    }
    Zeros(fields[..|fields| - 1], Put(ORIGIN, f.id, i));
  }

  lemma {:induction false} Zeros(fields: seq<Field>, c: Coord)
    requires forall id :: Get(c, id) == 0 || !Carries(fields, id)
    ensures DecodeOnto(fields, 0, c) == c
  {
    if fields != [] {
      var f, front := fields[|fields| - 1], fields[..|fields| - 1];
      Digits(0, Pow2(f.bits), 0, 0);
      assert Get(c, f.id) == 0;
      assert Put(c, f.id, 0) == c;
      forall id ensures Get(c, id) == 0 || !Carries(front, id) {
        if Carries(front, id) { var j :| 0 <= j < |front| && front[j].id == id; assert fields[j].id == id; }
      }
      Zeros(front, c);
    }
  }

  /** Where burst i of a granule is. */
  lemma BurstPlace(p: Params, fields: seq<Field>, i: nat)
    requires Applies(p, fields) && i < Bursts(p)
    ensures 0 <= i * p.BurstBytes()
    ensures Locate(p, fields, i * p.BurstBytes()) == Put(ORIGIN, fields[|fields| - 1].id, i)
    ensures fields[|fields| - 1].id.Bg? ==> i < p.bankgroups
  {
    var low, bytes := fields[|fields| - 1], p.BurstBytes();
    assert Distinct(fields) && low.bits == CeilLog2(SizesOf(p).Of(low.id)) && IsPow2(SizesOf(p).Of(low.id)) &&
           i < SizesOf(p).Of(low.id);
    ExactLog2(SizesOf(p).Of(low.id));
    hide Geometry, Runs, FitsLowest, Applies, Params.BurstBytes, Decode;
    LowestField(fields, i);
    MulMono(0, i, bytes);
    Digits(i * bytes, bytes, i, 0);
  }

  /** The mapping string ends in the name of the lowest field. */
  lemma EndsInLowest(p: Params, fields: seq<Field>)
    requires Geometry(p, fields) && fields != []
    ensures |p.mapping| >= 2 && p.mapping[|p.mapping| - 2..] == NameOf(fields[|fields| - 1].id)
  {
    var n := |fields| - 1;
    assert Ids(fields)[n] == fields[n].id && |p.mapping| == 2 * n + 2;
    assert Token(p.mapping, n) == p.mapping[|p.mapping| - 2..];
  }

  /* ---- Reading them, one after the other ---- */

  /** When burst i's read command comes. */
  function ColumnAt(p: Params, arrive: int, i: nat): int
    requires p.mtps > 0
  {
    arrive + p.tRCD + i * Step(p)
  }

  /** After i reads of one row: the row is open, the bus free right behind the last data. */
  ghost predicate RowWarm(p: Params, c: Channel, arrive: int, i: nat)
    requires p.mtps > 0
  {
    && Shaped(p, c) && p.NumBanks() > 0 && c.nextRefresh == p.tREFI
    && if i == 0 then c == FreshChannel(p)
       else
         && c.banks[0].openRow == 0 && c.banks[0].act == arrive && c.order <= c.lastCol == ColumnAt(p, arrive, i - 1)
         && c.lastColRank == 0 && c.lastColBg == 0 && !c.lastWasWrite && c.busFree == c.lastCol + p.tRL + p.BurstPs()
  }

  /** One more read of the row. */
  lemma RowRead(p: Params, fields: seq<Field>, c: Channel, arrive: int, i: nat)
    requires Applies(p, fields) && fields[|fields| - 1].id.Co? && arrive == p.ctrlPs / 2 && i < Bursts(p) &&
             RowWarm(p, c, arrive, i)
    ensures var k, t := Put(ORIGIN, Co, i), Max(arrive, c.order);
            && InRange(p, k) && BankOf(p, k) == 0
            && var pl := PlanOf(p, c, k, t, false);
               && t <= pl.col == ColumnAt(p, arrive, i) && pl.end == pl.col + p.tRL + p.BurstPs()
               && RowWarm(p, CommitOf(p, c, pl, false), arrive, i + 1)
  {
    EndsInLowest(p, fields);
    assert Step(p) == Max(p.BurstPs(), p.tCCD_L);
    assert p.ranks == 1 && p.bankgroups > 0 && p.banks > 0;
    if i > 0 { Distribute(i - 1, 1, Step(p)); }
  }

  /** After i reads of a row in each of the first i bank groups. */
  ghost predicate GroupsWarm(p: Params, c: Channel, arrive: int, i: nat)
    requires p.mtps > 0
  {
    && Shaped(p, c) && p.ranks == 1 && p.NumBanks() > 0 && c.nextRefresh == p.tREFI
    && (forall j: nat :: i <= j < p.bankgroups && BankOf(p, Put(ORIGIN, Bg, j)) < |c.banks| ==>
        c.banks[BankOf(p, Put(ORIGIN, Bg, j))] == FreshBank())
    && |c.faw[0]| == i
    && if i == 0 then c == FreshChannel(p)
       else
         && c.lastAct == arrive + (i - 1) * p.tRRD_S && c.lastActRank == 0 && c.lastActBg == i - 1 &&
            c.order <= c.lastAct
         && c.lastCol == ColumnAt(p, arrive, i - 1) && c.lastColRank == 0 && c.lastColBg == i - 1 && !c.lastWasWrite
         && c.busFree == c.lastCol + p.tRL + p.BurstPs()
  }

  /** One more read, of a row in the next group. */
  lemma GroupRead(p: Params, fields: seq<Field>, c: Channel, arrive: int, i: nat)
    requires Applies(p, fields) && fields[|fields| - 1].id.Bg? && arrive == p.ctrlPs / 2 && i < Bursts(p) &&
             GroupsWarm(p, c, arrive, i)
    ensures var k, t := Put(ORIGIN, Bg, i), Max(arrive, c.order);
            && InRange(p, k)
            && var pl := PlanOf(p, c, k, t, false);
               && t <= pl.col == ColumnAt(p, arrive, i) && pl.end == pl.col + p.tRL + p.BurstPs()
               && GroupsWarm(p, CommitOf(p, c, pl, false), arrive, i + 1)
  {
    var k, t := Put(ORIGIN, Bg, i), Max(arrive, c.order);
    assert InRange(p, k) && i <= 3;
    GroupAct(p, fields, c, arrive, i);
    GroupColumn(p, fields, c, arrive, i);
    hide Applies, FitsLowest, EarliestAct, EarliestCol, BankOf, Params.BurstPs, Step;
    GroupCommit(p, c, arrive, i, PlanOf(p, c, k, t, false));
  }

  /** The plan is a row opening. */
  lemma GroupAct(p: Params, fields: seq<Field>, c: Channel, arrive: int, i: nat)
    requires Applies(p, fields) && arrive == p.ctrlPs / 2 && i < Bursts(p) && i <= 3 && i < p.bankgroups &&
             GroupsWarm(p, c, arrive, i)
    ensures var k, t := Put(ORIGIN, Bg, i), Max(arrive, c.order);
            && InRange(p, k) && BankOf(p, k) < |c.banks| && c.banks[BankOf(p, k)] == FreshBank()
            && EarliestAct(p, c, k, FreshBank(), t) == arrive + i * p.tRRD_S && t <= arrive + i * p.tRRD_S
  {
    var k := Put(ORIGIN, Bg, i);
    BankInRange(p, k);
    hide BankOf;
    MulMono(0, i, p.tRRD_S);
    if i > 0 { Distribute(i - 1, 1, p.tRRD_S); MulMono(0, i - 1, p.tRRD_S); }
  }

  lemma GroupColumn(p: Params, fields: seq<Field>, c: Channel, arrive: int, i: nat)
    requires Applies(p, fields) && fields[|fields| - 1].id.Bg? && arrive == p.ctrlPs / 2 && i < Bursts(p) &&
             GroupsWarm(p, c, arrive, i)
    ensures EarliestCol(p, c, Put(ORIGIN, Bg, i), arrive + i * p.tRRD_S + p.tRCD, false) == ColumnAt(p, arrive, i)
  {
    EndsInLowest(p, fields);
    hide Params.BurstPs;
    if i > 0 {
      Distribute(i - 1, 1, Step(p));
      MulMono(p.tRRD_S, Step(p), i);
    }
  }

  lemma GroupCommit(p: Params, c: Channel, arrive: int, i: nat, pl: Plan)
    requires p.mtps > 0 && p.tRCD >= 0 && p.tRRD_S >= 0 && GroupsWarm(p, c, arrive, i) && i <= 3 &&
             pl.k == Put(ORIGIN, Bg, i) && InRange(p, pl.k)
    requires pl.bank == BankOf(p, pl.k) < |c.banks| && pl.kind.Miss? && pl.act == pl.firstCmd == arrive + i * p.tRRD_S
    requires pl.col == ColumnAt(p, arrive, i) && pl.end == pl.col + p.tRL + p.BurstPs()
    ensures GroupsWarm(p, CommitOf(p, c, pl, false), arrive, i + 1)
  {
    forall j: nat | i < j < p.bankgroups ensures BankOf(p, Put(ORIGIN, Bg, j)) != pl.bank {
      MulStep(i, j, p.banks);
    }
    hide BankOf, ColumnAt;
  }

  /** The channel after i bursts of the granule. */
  ghost predicate Warm(p: Params, fields: seq<Field>, c: Channel, arrive: int, i: nat)
    requires p.mtps > 0 && fields != []
  {
    if fields[|fields| - 1].id.Co? then RowWarm(p, c, arrive, i) else GroupsWarm(p, c, arrive, i)
  }

  lemma FreshIsWarm(p: Params, fields: seq<Field>, arrive: int)
    requires Applies(p, fields)
    ensures Warm(p, fields, FreshChannel(p), arrive, 0)
  {
    LocateInRange(p, fields, 0);
  }

  /** One more burst of the granule, as the engine issues it. */
  lemma NextBurst(p: Params, fields: seq<Field>, c0: seq<Channel>, t0: seq<seq<Cmd>>, c1: seq<Channel>,
                  t1: seq<seq<Cmd>>,
                  arrive: int, i: nat, addr: nat, d: int)
    requires Applies(p, fields) && arrive == p.ctrlPs / 2 && i < Bursts(p) && addr == i * p.BurstBytes()
    requires |c0| == 1 && Warm(p, fields, c0[0], arrive, i) && Issued(p, fields, c0, t0, c1, t1, arrive, addr, false, d)
    ensures |c1| == 1 && Warm(p, fields, c1[0], arrive, i + 1)
    ensures d == ColumnAt(p, arrive, i) + p.tRL + p.BurstPs()
  {
    BurstPlace(p, fields, i);
    var k, s := Locate(p, fields, addr), Line(c0[0], t0[0]);
    var t := Max(arrive, s.c.order);
    if fields[|fields| - 1].id.Co? {
      RowRead(p, fields, s.c, arrive, i);
    } else {
      GroupRead(p, fields, s.c, arrive, i);
    }
    ColumnBeforeRefresh(p, fields, i);
    assert s.c.nextRefresh == p.tREFI;
    hide Warm, Applies, PlanOf, Burst, BurstPlan, Locate, ColumnAt, RefreshFits;
    UndisturbedBurst(p, s, k, arrive, false);
  }

  lemma ColumnBeforeRefresh(p: Params, fields: seq<Field>, i: nat)
    requires Applies(p, fields) && i < Bursts(p)
    ensures p.tREFI > 0 ==> ColumnAt(p, p.ctrlPs / 2, i) < p.tREFI
  {
    MulMono(i, Bursts(p) - 1, Step(p));
  }

  /** Burst i's data ends when its column command says. */
  ghost predicate OnTime(p: Params, times: seq<int>)
    requires p.mtps > 0
  {
    forall i: nat :: i < |times| ==> times[i] == ColumnAt(p, p.ctrlPs / 2, i) + p.tRL + p.BurstPs()
  }

  ghost predicate Consecutive(p: Params, bursts: seq<nat>)
  {
    forall i: nat :: i < |bursts| ==> bursts[i] == i * p.BurstBytes()
  }

  /** All of them. */
  lemma {:induction false} GranuleRead(p: Params, fields: seq<Field>, c0: seq<Channel>, t0: seq<seq<Cmd>>,
                                       bursts: seq<nat>, times: seq<int>, c1: seq<Channel>, t1: seq<seq<Cmd>>)
    requires Applies(p, fields) && c0 == [FreshChannel(p)] && |bursts| <= Bursts(p) && Consecutive(p, bursts)
    requires ReadInTurn(p, fields, c0, t0, p.ctrlPs / 2, bursts, times, c1, t1)
    ensures |c1| == 1 && Warm(p, fields, c1[0], p.ctrlPs / 2, |bursts|)
    ensures |times| == |bursts| && OnTime(p, times)
    decreases |bursts|
  {
    hide *;
    var n, c, t := LastRead(p, fields, c0, t0, p.ctrlPs / 2, bursts, times, c1, t1);
    if n >= 0 {
      FirstOnes(p, bursts, n);
      GranuleRead(p, fields, c0, t0, bursts[..n], times[..n], c, t);
      NextBurst(p, fields, c, t, c1, t1, p.ctrlPs / 2, n, bursts[n], times[n]);
      OneMoreOnTime(p, fields, times, n);
    } else {
      FreshIsWarm(p, fields, p.ctrlPs / 2);
      NothingLate(p, fields, times);
    }
  }

  lemma LastRead(p: Params, fields: seq<Field>, c0: seq<Channel>, t0: seq<seq<Cmd>>, arrive: int,
                 bursts: seq<nat>, times: seq<int>, c1: seq<Channel>, t1: seq<seq<Cmd>>)
                   returns (n: int, c: seq<Channel>, t: seq<seq<Cmd>>)
    requires ReadInTurn(p, fields, c0, t0, arrive, bursts, times, c1, t1)
    ensures n == |bursts| - 1 && |times| == |bursts| && (n < 0 ==> c1 == c0)
    ensures n >= 0 ==> ReadInTurn(p, fields, c0, t0, arrive, bursts[..n], times[..n], c, t) &&
                       Issued(p, fields, c, t, c1, t1, arrive, bursts[n], false, times[n])
  {
    hide Issued;
    n, c, t := |bursts| - 1, c0, t0;
    if n >= 0 {
      c, t :| ReadInTurn(p, fields, c0, t0, arrive, bursts[..n], times[..n], c, t) &&
        Issued(p, fields, c, t, c1, t1, arrive, bursts[n], false, times[n]);
    }
  }

  lemma FirstOnes(p: Params, bursts: seq<nat>, n: nat)
    requires n < |bursts| && Consecutive(p, bursts)
    ensures Consecutive(p, bursts[..n]) && bursts[n] == n * p.BurstBytes()
  {
  }

  lemma OneMoreOnTime(p: Params, fields: seq<Field>, times: seq<int>, n: nat)
    requires Applies(p, fields) && |times| == n + 1 && OnTime(p, times[..n])
    requires times[n] == ColumnAt(p, p.ctrlPs / 2, n) + p.tRL + p.BurstPs()
    ensures OnTime(p, times)
  {
    assert p.mtps > 0;
    hide ColumnAt, Params.BurstPs, Applies;
    forall i: nat | i < |times| ensures times[i] == ColumnAt(p, p.ctrlPs / 2, i) + p.tRL + p.BurstPs() {
      if i < n { assert times[i] == times[..n][i]; }
    }
  }

  lemma NothingLate(p: Params, fields: seq<Field>, times: seq<int>)
    requires Applies(p, fields) && times == []
    ensures OnTime(p, times)
  {
  }

  /** The last burst ends last. */
  lemma LastIsLatest(p: Params, fields: seq<Field>, times: seq<int>, done: int)
    requires Applies(p, fields) && |times| == Bursts(p) >= 1 && OnTime(p, times)
    requires done in times && forall d :: d in times ==> d <= done
    ensures done == ColumnAt(p, p.ctrlPs / 2, Bursts(p) - 1) + p.tRL + p.BurstPs()
  {
    var i: nat :| i < |times| && times[i] == done;
    MulMono(i, |times| - 1, Step(p));
    assert times[|times| - 1] in times;
  }

  /**
    `nominal_read_ps` of the engine: a fresh engine's read of one granule at address 0. Wherever
    the presets' closed form applies it is that.
   */
  method MeasureNominal(p: Params, fields: seq<Field>) returns (t: int)
    requires Geometry(p, fields) && Runs(p)
    ensures Applies(p, fields) ==> t == NominalReadPs(p)
  {
    ghost var read;
    t, read := FreshRead(p, fields);
    if Applies(p, fields) { NominalIs(p, fields, read, t); }
  }

  /** A fresh engine's read of one granule at address 0. */
  datatype Reading = Reading(before: Snapshot<int>, after: Snapshot<int>, data: nat -> int, walk: Walk<int>)

  ghost predicate GranuleAt0(p: Params, fields: seq<Field>, g: Reading) {
    && p.BurstBytes() > 0 && AlignOf(p) > 0 && g.before.wq == [] &&
       g.before.chan == seq(p.channels, _ => FreshChannel(p))
    && g.walk.bursts == BurstsFrom(SpanFirst(0, AlignOf(p)), SpanLast(0, Max(p.granule, 1), AlignOf(p)), p.BurstBytes())
    && Accessed(p, fields, g.before, g.after, false, g.data, 0 + p.ctrlPs / 2, g.walk)
  }

  method FreshRead(p: Params, fields: seq<Field>) returns (t: int, ghost read: Reading)
    requires Geometry(p, fields) && Runs(p)
    ensures GranuleAt0(p, fields, read) && t == read.walk.done + (p.ctrlPs - p.ctrlPs / 2)
  {
    hide CoreOf, PostedOf, BurstsFrom, SpanFirst, SpanLast, Accessed, AlignOf, Params.BurstBytes, FreshChannel,
         Geometry, Runs;
    var engine := new Engine<int>(p, fields);
    ghost var before := engine.Snap();
    ghost var data: nat -> int := a => 0;
    ghost var walk;
    assert before == engine.Snap() && before.wq == [];
    t, walk := engine.Access(0, 0, p.granule, false, data);
    read := Reading(before, engine.Snap(), data, walk);
  }

  lemma NominalIs(p: Params, fields: seq<Field>, g: Reading, t: int)
    requires Applies(p, fields) && GranuleAt0(p, fields, g) && t == g.walk.done + (p.ctrlPs - p.ctrlPs / 2)
    ensures t == NominalReadPs(p)
  {
    OneChannel(p, fields);
    assert seq(p.channels, _ => FreshChannel(p)) == [FreshChannel(p)];
    hide Applies, NominalReadPs, BurstsFrom, SpanFirst, SpanLast, Accessed, AlignOf, Params.BurstBytes, FreshChannel;
    FromAccess(p, fields, g.before, g.after, g.data, g.walk);
    Nominal(p, fields, g.before.chan, g.before.past.trace, g.walk.bursts, g.walk.times, g.walk.done, g.after.chan,
            g.after.past.trace);
  }

  lemma OneChannel(p: Params, fields: seq<Field>)
    requires Applies(p, fields)
    ensures p.channels == 1
  {
  }

  lemma FromAccess(p: Params, fields: seq<Field>, s: Snapshot<int>, s': Snapshot<int>, data: nat -> int,
                   walk: Walk<int>)
    requires Accessed(p, fields, s, s', false, data, 0 + p.ctrlPs / 2, walk) && s.wq == [] &&
             s.chan == [FreshChannel(p)]
    requires p.BurstBytes() > 0 && AlignOf(p) > 0
    requires walk.bursts == BurstsFrom(SpanFirst(0, AlignOf(p)), SpanLast(0, Max(p.granule, 1), AlignOf(p)),
                                       p.BurstBytes())
    ensures Measured(p, fields, s.chan, s.past.trace, walk.bursts, walk.times, walk.done, s'.chan, s'.past.trace)
  {
    hide ReadInTurn, InTurn, BurstsFrom, SpanFirst, SpanLast, AlignOf, Params.BurstBytes, AllAnswered, Grown;
    ReadsOfNothingQueued(p, fields, FlowOf(s), FlowOf(s'), p.ctrlPs / 2, walk.bursts, walk.how, walk.times);
    assert 0 + p.ctrlPs / 2 == p.ctrlPs / 2;
  }

  /** The bursts of a granule at address 0, read from a fresh engine, the latest at `done`. */
  ghost predicate Measured(p: Params, fields: seq<Field>, c0: seq<Channel>, t0: seq<seq<Cmd>>, bursts: seq<nat>,
                           times: seq<int>, done: int,
                           c1: seq<Channel>, t1: seq<seq<Cmd>>)
  {
    && c0 == [FreshChannel(p)] && ReadInTurn(p, fields, c0, t0, p.ctrlPs / 2, bursts, times, c1, t1)
    && p.BurstBytes() > 0 && AlignOf(p) > 0
    && bursts == BurstsFrom(SpanFirst(0, AlignOf(p)), SpanLast(0, Max(p.granule, 1), AlignOf(p)), p.BurstBytes())
    && (done == p.ctrlPs / 2 || done in times) && forall d :: d in times ==> p.ctrlPs / 2 <= d <= done
  }

  ghost predicate IsNominal(p: Params, t: int)
    requires p.mtps > 0 && p.BurstBytes() > 0
  {
    t + (p.ctrlPs - p.ctrlPs / 2) == NominalReadPs(p)
  }

  lemma Nominal(p: Params, fields: seq<Field>, c0: seq<Channel>, t0: seq<seq<Cmd>>, bursts: seq<nat>, times: seq<int>,
                done: int,
                c1: seq<Channel>, t1: seq<seq<Cmd>>)
    requires p.mtps > 0 && p.BurstBytes() > 0 && Applies(p, fields) &&
             Measured(p, fields, c0, t0, bursts, times, done, c1, t1)
    ensures IsNominal(p, done)
  {
    hide Applies, ReadInTurn, BurstsFrom, SpanFirst, SpanLast, AlignOf, Params.BurstBytes, Bursts, Params.BurstPs,
         ColumnAt, Consecutive, Warm, OnTime, NominalReadPs;
    TheGranule(p, fields, bursts);
    GranuleRead(p, fields, c0, t0, bursts, times, c1, t1);
    assert times[0] in times && p.ctrlPs / 2 <= times[0] <= done;
    assert done in times;
    LastIsLatest(p, fields, times, done);
    ClosedForm(p, fields);
  }

  lemma TheGranule(p: Params, fields: seq<Field>, bursts: seq<nat>)
    requires Applies(p, fields) && AlignOf(p) > 0
    requires bursts == BurstsFrom(SpanFirst(0, AlignOf(p)), SpanLast(0, Max(p.granule, 1), AlignOf(p)), p.BurstBytes())
    ensures |bursts| == Bursts(p) >= 1 && Consecutive(p, bursts)
  {
    hide SpanFirst, SpanLast, BurstsFrom, Bursts, AlignOf, Params.BurstBytes, Geometry, FitsLowest;
    GranuleBursts(p, fields);
  }

  lemma ClosedForm(p: Params, fields: seq<Field>)
    requires Applies(p, fields) && Bursts(p) >= 1
    ensures p.mtps > 0 && p.BurstBytes() > 0
    ensures ColumnAt(p, p.ctrlPs / 2, Bursts(p) - 1) + p.tRL + p.BurstPs() + (p.ctrlPs - p.ctrlPs / 2) ==
              NominalReadPs(p)
  {
  }
}
