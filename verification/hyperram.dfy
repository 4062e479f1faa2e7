/**
  The HyperBus side of the memory engine (`targets/hetero/dram_core.hpp`, `access_hyperram`): a
  transfer is cut into transactions so short that the chip is never selected longer than tCSM, with
  tRWR between them. A ghost log holds every transaction of a run.
 */
module HyperRam {
  import opened Arith
  import opened DramMapping

  datatype Params = Params(
    ctrlPs: nat, granule: nat, ckPs: nat, caClks: nat, latClks: nat, fixed2x: bool, busBytes: nat, csmPs: nat,
    rwrPs: nat)
  {
    /** What the constructor refuses to run without. */
    ghost predicate Valid() { 0 < ckPs && 0 < busBytes && 0 < granule }

    function PerClk(): nat { 2 * busBytes }

    /** Clocks before the first data: command, address and latency. */
    function Overhead(): nat { caClks + latClks * (if fixed2x then 2 else 1) }

    /** The most one transaction moves. */
    function MaxChunk(): (n: nat)
      requires Valid()
      ensures 0 < n
    {
      DivNonNegative(csmPs, ckPs);
      var clks := csmPs / ckPs - Overhead();
      if clks * PerClk() > PerClk() then (MulMono(0, clks, PerClk()); clks * PerClk()) else PerClk()
    }
  }

  /** The chip is selected from `start` to `end`. */
  datatype Transaction = Transaction(start: int, end: int, bytes: nat)

  /** Clocks of data. */
  function DataClks(p: Params, bytes: nat): nat
    requires p.Valid()
  {
    DivNonNegative(bytes + p.PerClk() - 1, p.PerClk());
    (bytes + p.PerClk() - 1) / p.PerClk()
  }

  /** What a transaction of so many bytes takes. */
  function Selected(p: Params, bytes: nat): nat
    requires p.Valid()
  {
    MulMono(0, p.Overhead() + DataClks(p, bytes), p.ckPs);
    (p.Overhead() + DataClks(p, bytes)) * p.ckPs
  }

  /** What its data takes of that. */
  function BusyPs(p: Params, bytes: nat): nat
    requires p.Valid()
  {
    MulMono(0, DataClks(p, bytes), p.ckPs);
    DataClks(p, bytes) * p.ckPs
  }

  /* ---- What a request is widened to ---- */

  /** `addr & ~(granule - 1)`. */
  function First(addr: nat, granule: nat): (first: nat)
    requires granule > 0
    ensures first <= addr
  {
    AndAtMost(addr, granule - 1);
    addr - And(addr, granule - 1)
  }

  /** `last | (granule - 1)`. */
  function Last(last: nat, granule: nat): (end: nat)
    requires granule > 0
    ensures last <= end
  {
    AndAtMost(last, granule - 1);
    last + (granule - 1 - And(last, granule - 1))
  }

  /** Bytes of the widened request: at least those asked for. */
  function Widened(addr: nat, size: nat, granule: nat): (bytes: nat)
    requires granule > 0
    ensures 0 < Max(size, 1) <= bytes
  {
    Last(addr + Max(size, 1) - 1, granule) - First(addr, granule) + 1
  }

  /** Granules that are powers of two are widened to whole, aligned ones. */
  lemma WidenedWhole(addr: nat, size: nat, granule: nat)
    requires IsPow2(granule)
    ensures First(addr, granule) % granule == 0 && (Last(addr + Max(size, 1) - 1, granule) + 1) % granule == 0
  {
    var last := addr + Max(size, 1) - 1;
    MaskIsRemainder(addr, granule);
    MaskIsRemainder(last, granule);
    hide And;
    WholeBelow(addr, granule);
    WholeBelow(last, granule);
  }

  lemma WholeBelow(a: nat, granule: nat)
    requires granule > 0
    ensures (a - a % granule) % granule == 0 && (a - a % granule + granule) % granule == 0
  {
    var q := a / granule;
    assert a - a % granule == q * granule;
    Distribute(q, 1, granule);
    MultipleIs(q * granule, granule, q);
    MultipleIs(q * granule + granule, granule, q + 1);
  }

  /* ---- How long a transfer takes ---- */

  /** The next transaction of a transfer. */
  function Chunk(p: Params, left: nat): (c: nat)
    requires p.Valid() && 0 < left
    ensures 0 < c <= left && c <= p.MaxChunk()
  {
    Min(left, p.MaxChunk())
  }

  /** Transaction after transaction, until the bus is free again. */
  function Time(p: Params, left: nat): int
    requires p.Valid()
  {
    if left == 0 then 0 else Selected(p, Chunk(p, left)) + p.rwrPs + Time(p, left - Chunk(p, left))
  }

  function Chunks(p: Params, left: nat): (k: nat)
    requires p.Valid()
    ensures left > 0 ==> k >= 1 && (k == 1 <==> left <= p.MaxChunk())
  {
    if left == 0 then 0 else 1 + Chunks(p, left - Chunk(p, left))
  }

  /** A full chunk is whole clocks. */
  lemma WholeClks(p: Params) returns (k: nat)
    requires p.Valid()
    ensures p.MaxChunk() == k * p.PerClk() && k >= 1
    ensures k == 1 || k == p.csmPs / p.ckPs - p.Overhead()
  {
    DivNonNegative(p.csmPs, p.ckPs);
    var clks := p.csmPs / p.ckPs - p.Overhead();
    if clks * p.PerClk() > p.PerClk() {
      if clks <= 0 { MulMono(clks, 0, p.PerClk()); }
      k := clks;
    } else {
      k := 1;
    }
  }

  /** So no clock of data is lost between chunks. */
  lemma ChunkClks(p: Params, left: nat)
    requires p.Valid() && 0 < left
    ensures DataClks(p, left) == DataClks(p, Chunk(p, left)) + DataClks(p, left - Chunk(p, left))
  {
    hide p.MaxChunk, p.Overhead;
    var per := p.PerClk();
    if left > p.MaxChunk() {
      var k := WholeClks(p);
      WholeThenRest(left - p.MaxChunk(), per, k);
    } else {
      Digits(per - 1, per, 0, per - 1);
    }
  }

  lemma WholeThenRest(rest: nat, per: nat, k: nat)
    requires per > 0
    ensures (k * per + rest + per - 1) / per == (k * per + per - 1) / per + (rest + per - 1) / per
  {
    Digits(k * per + per - 1, per, k, per - 1);
    ModAdd(rest + per - 1, per, k);
  }

  lemma BusyStep(p: Params, left: nat)
    requires p.Valid() && 0 < left
    ensures BusyPs(p, left) == BusyPs(p, Chunk(p, left)) + BusyPs(p, left - Chunk(p, left))
  {
    hide DataClks, Chunk;
    ChunkClks(p, left);
    Distribute(DataClks(p, Chunk(p, left)), DataClks(p, left - Chunk(p, left)), p.ckPs);
  }

  /** The closed form: the clocks of the data, and for every transaction its overhead and tRWR. */
  lemma {:induction false} TimeIs(p: Params, left: nat)
    requires p.Valid()
    ensures Time(p, left) == BusyPs(p, left) + Chunks(p, left) * (p.Overhead() * p.ckPs + p.rwrPs)
  {
    hide DataClks, Chunk, p.MaxChunk, p.Overhead, BusyPs;
    if left > 0 {
      var c := Chunk(p, left);
      BusyStep(p, left);
      TimeIs(p, left - c);
      SelectedIs(p, c);
      Distribute(1, Chunks(p, left - c), p.Overhead() * p.ckPs + p.rwrPs);
    } else {
      NoData(p);
    }
  }

  lemma NoData(p: Params)
    requires p.Valid()
    ensures BusyPs(p, 0) == 0
  {
    Digits(p.PerClk() - 1, p.PerClk(), 0, p.PerClk() - 1);
  }

  lemma SelectedIs(p: Params, bytes: nat)
    requires p.Valid()
    ensures Selected(p, bytes) == p.Overhead() * p.ckPs + BusyPs(p, bytes)
  {
    hide p.Overhead, DataClks;
    Distribute(p.Overhead(), DataClks(p, bytes), p.ckPs);
  }

  /* ---- The select limit ---- */

  /** Every transaction the bus may make keeps the chip selected for at most tCSM. */
  ghost predicate SelectedShortly(p: Params)
    requires p.Valid()
  {
    forall bytes: nat :: 0 < bytes <= p.MaxChunk() ==> Selected(p, bytes) <= p.csmPs
  }

  /** That is so exactly if tCSM has room for the overhead and one clock of data. */
  lemma SelectedShortIff(p: Params)
    requires p.Valid()
    ensures SelectedShortly(p) <==> (p.Overhead() + 1) * p.ckPs <= p.csmPs
  {
    hide p.Overhead, p.MaxChunk, Selected;
    OneByte(p);
    if (p.Overhead() + 1) * p.ckPs <= p.csmPs {
      forall bytes: nat | 0 < bytes <= p.MaxChunk() ensures Selected(p, bytes) <= p.csmPs {
        SelectedShort(p, bytes);
      }
    }
  }

  lemma OneByte(p: Params)
    requires p.Valid()
    ensures Selected(p, 1) == (p.Overhead() + 1) * p.ckPs
  {
    hide p.Overhead;
    Digits(p.PerClk(), p.PerClk(), 1, 0);
  }

  lemma SelectedShort(p: Params, bytes: nat)
    requires p.Valid() && (p.Overhead() + 1) * p.ckPs <= p.csmPs && 0 < bytes <= p.MaxChunk()
    ensures Selected(p, bytes) <= p.csmPs
  {
    hide p.Overhead, p.MaxChunk, DataClks;
    var k := WholeClks(p);
    ClksBelow(p, bytes, k);
    RoomForClks(p.Overhead(), DataClks(p, bytes), k, p.csmPs, p.ckPs);
  }

  lemma ClksBelow(p: Params, bytes: nat, k: nat)
    requires p.Valid() && bytes <= k * p.PerClk()
    ensures DataClks(p, bytes) <= k
  {
    var per, d := p.PerClk(), DataClks(p, bytes);
    if d > k { MulStep(k, d, per); }
  }

  lemma RoomForClks(overhead: nat, d: nat, k: nat, csm: nat, ck: nat)
    requires ck > 0 && (overhead + 1) * ck <= csm && d <= k && (k == 1 || k == csm / ck - overhead)
    ensures (overhead + d) * ck <= csm
  {
    if k == 1 {
      MulMono(overhead + d, overhead + 1, ck);
    } else {
      MulMono(overhead + d, csm / ck, ck);
    }
  }

  /* ---- The bus ---- */

  /** A run's transactions keep the rules: as long as their data takes, and tRWR apart. */
  ghost predicate Kept(p: Params, log: seq<Transaction>)
    requires p.Valid()
  {
    && (forall i :: 0 <= i < |log| ==>
          && 0 < log[i].bytes <= p.MaxChunk()
          && log[i].end == log[i].start + Selected(p, log[i].bytes))
    && (forall i, j :: 0 <= i < j < |log| ==> log[i].end + p.rwrPs <= log[j].start)
  }

  ghost predicate FreeAfter(log: seq<Transaction>, t: int, rwrPs: nat) {
    log != [] ==> log[|log| - 1].end + rwrPs <= t
  }

  lemma KeptOneMore(p: Params, log: seq<Transaction>, t: int, bytes: nat) returns (more: seq<Transaction>)
    requires p.Valid() && Kept(p, log) && FreeAfter(log, t, p.rwrPs) && 0 < bytes <= p.MaxChunk()
    ensures more == log + [Transaction(t, t + Selected(p, bytes), bytes)] && Kept(p, more)
    ensures FreeAfter(more, t + Selected(p, bytes) + p.rwrPs, p.rwrPs)
    ensures BytesOf(more) == BytesOf(log) + bytes
  {
    hide p.MaxChunk, Selected;
    more := log + [Transaction(t, t + Selected(p, bytes), bytes)];
    assert more[..|log|] == log;
    forall i, j | 0 <= i < j < |more| ensures more[i].end + p.rwrPs <= more[j].start {
      if j == |log| && i < |log| - 1 { assert log[i].end + p.rwrPs <= log[|log| - 1].start; }
    }
  }

  ghost function BytesOf(log: seq<Transaction>): nat {
    if log == [] then 0 else BytesOf(log[..|log| - 1]) + log[|log| - 1].bytes
  }

  class Bus {
    const p: Params
    var free: int
    var bursts: nat
    var busyPs: nat
    ghost var log: seq<Transaction>

    ghost predicate Valid()
      reads this
    {
      p.Valid() && Kept(p, log) && bursts == |log| && FreeAfter(log, free, p.rwrPs)
    }

    constructor (p: Params)
      requires p.Valid()
      ensures Valid() && this.p == p && free == 0 && log == [] && busyPs == 0
    {
      this.p := p;
      free, bursts, busyPs, log := 0, 0, 0, [];
    }

    /**
      `access_hyperram`: the transfer of the widened request starts when the bus is free, takes the
      time of its transactions, and moves every byte once.
     */
    method Access(now: int, addr: nat, size: nat) returns (done: int)
      requires Valid()
      modifies this
      ensures Valid() && old(log) <= log
      ensures
        var bytes := Widened(addr, size, p.granule);
        && 0 < bytes && BytesOf(log) == BytesOf(old(log)) + bytes
        && bursts == old(bursts) + Chunks(p, bytes) && busyPs == old(busyPs) + BusyPs(p, bytes)
        && done == Max(now + p.ctrlPs / 2, old(free)) + Time(p, bytes) - p.rwrPs + (p.ctrlPs - p.ctrlPs / 2)
    {
      hide First, Last, Kept, Time, BusyPs, Chunks, BytesOf;
      var first, last := First(addr, p.granule), Last(addr + Max(size, 1) - 1, p.granule);
      var end := Transfer(Max(now + p.ctrlPs / 2, free), last - first + 1);
      done := end + (p.ctrlPs - p.ctrlPs / 2);
    }

    /** The loop: chunk after chunk. */
    method Transfer(start: int, bytes: nat) returns (end: int)
      requires Valid() && 0 < bytes && free <= start
      modifies this
      ensures Valid() && old(log) <= log
      ensures BytesOf(log) == BytesOf(old(log)) + bytes
      ensures bursts == old(bursts) + Chunks(p, bytes) && busyPs == old(busyPs) + BusyPs(p, bytes)
      ensures end == start + Time(p, bytes) - p.rwrPs && free == end + p.rwrPs
    {
      hide Kept, BusyPs, BytesOf, Selected, Chunk, FreeAfter;
      var t, left := start, bytes;
      end := t;
      assert FreeAfter(log, t, p.rwrPs) by { LaterStill(log, free, t, p.rwrPs); }
      while left > 0
        invariant 0 <= left <= bytes && p.Valid() && Kept(p, log) && FreeAfter(log, t, p.rwrPs)
        invariant bursts == |log| && old(log) <= log
        invariant BytesOf(log) + left == BytesOf(old(log)) + bytes
        invariant bursts + Chunks(p, left) == old(bursts) + Chunks(p, bytes)
        invariant busyPs + BusyPs(p, left) == old(busyPs) + BusyPs(p, bytes)
        invariant t + Time(p, left) == start + Time(p, bytes)
        invariant left < bytes ==> t == end + p.rwrPs
      {
        var chunk := Chunk(p, left);
        BusyStep(p, left);
        end := t + Selected(p, chunk);
        bursts := bursts + 1;
        busyPs := busyPs + BusyPs(p, chunk);
        log := KeptOneMore(p, log, t, chunk);
        left := left - chunk;
        t := end + p.rwrPs;
      }
      NoData(p);
      free := end + p.rwrPs;
    }
  }

  lemma LaterStill(log: seq<Transaction>, t: int, u: int, rwrPs: nat)
    requires FreeAfter(log, t, rwrPs) && t <= u
    ensures FreeAfter(log, u, rwrPs)
  {
  }

  /* ---- The unloaded read ---- */

  /** The closed form of `nominal_read_ps`. */
  function NominalReadPs(p: Params): int
    requires p.Valid()
  {
    p.ctrlPs + Selected(p, p.granule)
  }

  /** That is the controller's time, and as many clocks as command, latency (once or twice) and data take. */
  lemma NominalIs(p: Params, dataClks: nat)
    requires p.Valid() && (dataClks - 1) * (2 * p.busBytes) < p.granule <= dataClks * (2 * p.busBytes)
    ensures p.fixed2x ==> NominalReadPs(p) == p.ctrlPs + (p.caClks + 2 * p.latClks + dataClks) * p.ckPs
    ensures !p.fixed2x ==> NominalReadPs(p) == p.ctrlPs + (p.caClks + p.latClks + dataClks) * p.ckPs
  {
    ClksAre(p.granule, 2 * p.busBytes, dataClks);
  }

  lemma ClksAre(bytes: nat, per: nat, clks: nat)
    requires per > 0 && (clks - 1) * per < bytes <= clks * per
    ensures (bytes + per - 1) / per == clks
  {
    Distribute(clks, -1, per);
    Digits(bytes + per - 1, per, clks, bytes + per - 1 - clks * per);
  }

  /** The preset's part, with the default granule and controller: 49 clocks of 5 ns and 20 ns. */
  lemma PresetNominal()
    ensures var p := Params(20000, 64, 5000, 3, 7, true, 1, 4000000, 35000);
            p.Valid() && NominalReadPs(p) == 265000 && p.granule <= p.MaxChunk()
  {
    var p := Params(20000, 64, 5000, 3, 7, true, 1, 4000000, 35000);
    NominalIs(p, 32);
    Digits(4000000, 5000, 800, 0);
  }

  /** A fresh bus reads a granule in that time exactly if one transaction takes it, or further ones cost nothing. */
  method MeasureNominal(p: Params) returns (t: int)
    requires p.Valid()
    ensures t == NominalReadPs(p) <==> p.granule <= p.MaxChunk() || p.Overhead() * p.ckPs + p.rwrPs == 0
  {
    hide Time, Selected, Widened, p.MaxChunk, p.Overhead, BusyPs, Chunks;
    var bus := new Bus(p);
    GranuleSpan(p.granule);
    t := bus.Access(0, 0, p.granule);
    ExtraTransactions(p);
  }

  lemma GranuleSpan(granule: nat)
    requires granule > 0
    ensures Widened(0, granule, granule) == granule
  {
    AndSelf(granule - 1);
  }

  lemma ExtraTransactions(p: Params)
    requires p.Valid()
    ensures
      Time(p, p.granule) - p.rwrPs == Selected(p, p.granule) <==>
      p.granule <= p.MaxChunk() || p.Overhead() * p.ckPs + p.rwrPs == 0
  {
    hide p.MaxChunk, p.Overhead, BusyPs, Selected, Time;
    var k, each := Chunks(p, p.granule), p.Overhead() * p.ckPs + p.rwrPs;
    TimeIs(p, p.granule);
    SelectedIs(p, p.granule);
    Distribute(k - 1, 1, each);
    MulMono(0, p.Overhead(), p.ckPs);
    if k > 1 && each > 0 { MulPositive(k - 1, each); }
  }
}
