/**
  The timing engine itself (`targets/hetero/dram_core.hpp`, class `Engine`, kind "dram"): one
  object whose methods update the channels, the write queue and the counters in place.

  Ghost state follows each run: `trace[ch]` is every command sent on a channel, `accepted` and
  `sent` are the times at which each posted write entered the queue and finished on the bus, and
  `dram`, `pending` and `mem` give the bursts a content, so that what a read is answered with can
  be compared with a flat memory.
 */
module DramEngine {
  import opened Arith
  import opened Options
  import opened DramDevice
  import opened DramMapping
  import opened DramChannel
  import opened DramRefresh
  import opened DramBurst
  import opened DramPrompt
  import opened DramRequest

  datatype QueuedWrite = QueuedWrite(arrive: int, addr: nat)

  datatype Stats = Stats(
    nbReads: nat, nbWrites: nat, bursts: nat, rowHits: nat, rowMisses: nat, rowConflicts: nat,
    refreshes: nat, forwarded: nat, merged: nat, busyPs: nat)

  const NO_STATS: Stats := Stats(0, 0, 0, 0, 0, 0, 0, 0, 0, 0)

  function SizesOf(p: Params): Sizes
    requires p.BurstBytes() > 0
  {
    Sizes(p.rows, p.ranks, p.bankgroups, p.banks, p.pageBytes / p.BurstBytes(), p.channels)
  }

  /** Whole aligned granules are timed, and never less than a burst. */
  function AlignOf(p: Params): nat { Max(p.granule, p.BurstBytes()) }

  /** What the constructor refuses to run without. */
  ghost predicate Geometry(p: Params, fields: seq<Field>) {
    && IsPow2(p.channels) && IsPow2(p.ranks) && IsPow2(p.bankgroups) && IsPow2(p.banks) && IsPow2(p.rows)
    && IsPow2(p.BurstBytes()) && IsPow2(AlignOf(p))
    && p.pageBytes % p.BurstBytes() == 0 && IsPow2(p.pageBytes / p.BurstBytes())
    && Accepts(p.mapping, SizesOf(p), fields)
    && 0 <= p.wqDepth
    && (p.wqDepth > 0 ==> 0 < p.wqLow <= p.wqHigh < p.wqDepth)
  }

  /**
    What it needs but does not check: one rank, durations that are not negative, and room for a
    refresh and a row opening in each refresh interval.
   */
  ghost predicate Runs(p: Params) { p.ranks == 1 && p.TimingsOk() && RefreshFits(p) }

  /** The constructor's checks, in its order. */
  method CheckGeometry(p: Params) returns (ok: bool, fields: seq<Field>)
    ensures ok ==> Geometry(p, fields)
    ensures !ok ==> forall fs: seq<Field> :: !Geometry(p, fs)
  {
    fields := [];
    ok := false;
    if !(IsPow2(p.channels) && IsPow2(p.ranks) && IsPow2(p.bankgroups) && IsPow2(p.banks) && IsPow2(p.rows)) { return; }
    if !IsPow2(p.BurstBytes()) || !IsPow2(AlignOf(p)) { return; }
    if p.pageBytes % p.BurstBytes() != 0 || !IsPow2(p.pageBytes / p.BurstBytes()) { return; }
    var parsed := ParseMapping(p.mapping, SizesOf(p));
    if parsed.Refused? { return; }
    if p.wqDepth < 0 || (p.wqDepth > 0 && !(0 < p.wqLow <= p.wqHigh < p.wqDepth)) { return; }
    return true, parsed.fields;
  }

  /** Coordinates of a byte address. */
  function Locate(p: Params, fields: seq<Field>, addr: nat): Coord
    requires p.BurstBytes() > 0
  {
    Decode(fields, addr / p.BurstBytes())
  }

  lemma LocateInRange(p: Params, fields: seq<Field>, addr: nat)
    requires Geometry(p, fields) && p.ranks == 1
    ensures InRange(p, Locate(p, fields, addr)) && Locate(p, fields, addr).ch < p.channels
    ensures p.NumBanks() > 0
  {
    var a, m, sizes := addr / p.BurstBytes(), p.mapping, SizesOf(p);
    forall x: FieldId ensures IsPow2(sizes.Of(x)) {}
    DecodeInRange(m, sizes, fields, a, Ra);
    DecodeInRange(m, sizes, fields, a, Bg);
    DecodeInRange(m, sizes, fields, a, Ba);
    DecodeInRange(m, sizes, fields, a, Ch);
    MulPositive(p.ranks, p.bankgroups);
    MulPositive(p.ranks * p.bankgroups, p.banks);
  }

  /* ---- Counting commands over all channels ---- */

  /** Column commands, activates, refreshes and precharges of one bank, in a trace. */
  datatype Tally = Tally(cols: nat, acts: nat, refs: nat, pres: nat)

  ghost function TallyOf(tr: seq<Cmd>): Tally {
    if tr == [] then Tally(0, 0, 0, 0)
    else
      var t := TallyOf(tr[..|tr| - 1]);
      match tr[|tr| - 1]
      case Col(_, _, _, _, _, _) => t.(cols := t.cols + 1)
      case Act(_, _, _, _) => t.(acts := t.acts + 1)
      case Ref(_, _, _) => t.(refs := t.refs + 1)
      case Pre(_, _) => t.(pres := t.pres + 1)
      case _ => t
  }

  ghost function Total(traces: seq<seq<Cmd>>): Tally {
    if traces == [] then Tally(0, 0, 0, 0)
    else
      var t, u := Total(traces[..|traces| - 1]), TallyOf(traces[|traces| - 1]);
      Tally(t.cols + u.cols, t.acts + u.acts, t.refs + u.refs, t.pres + u.pres)
  }

  lemma {:induction false} TallyAppend(a: seq<Cmd>, b: seq<Cmd>)
    ensures TallyOf(a + b) == Tally(TallyOf(a).cols + TallyOf(b).cols, TallyOf(a).acts + TallyOf(b).acts,
                                    TallyOf(a).refs + TallyOf(b).refs, TallyOf(a).pres + TallyOf(b).pres)
  {
    if b == [] {
      assert a + b == a;
    } else {
      TallyAppend(a, b[..|b| - 1]);
      assert (a + b)[..|a + b| - 1] == a + b[..|b| - 1];
    }
  }

  lemma {:induction false} TallyRefs(tr: seq<Cmd>)
    ensures TallyOf(tr).refs == RefCount(tr)
  {
    if tr != [] { TallyRefs(tr[..|tr| - 1]); }
  }

  lemma {:induction false} TotalUpdate(traces: seq<seq<Cmd>>, ch: nat, tr: seq<Cmd>)
    requires ch < |traces|
    ensures var t, u := Total(traces), Total(traces[ch := tr]);
            && u.cols - t.cols == TallyOf(tr).cols - TallyOf(traces[ch]).cols
            && u.acts - t.acts == TallyOf(tr).acts - TallyOf(traces[ch]).acts
            && u.refs - t.refs == TallyOf(tr).refs - TallyOf(traces[ch]).refs
            && u.pres - t.pres == TallyOf(tr).pres - TallyOf(traces[ch]).pres
  {
    var n := |traces| - 1;
    if ch < n {
      assert traces[ch := tr][..n] == traces[..n][ch := tr];
      TotalUpdate(traces[..n], ch, tr);
    } else {
      assert traces[ch := tr][..n] == traces[..n];
    }
  }

  lemma {:induction false} TotalOfNothing(n: nat)
    ensures Total(seq(n, _ => [])) == Tally(0, 0, 0, 0)
  {
    if n > 0 {
      var s: seq<seq<Cmd>> := seq(n, _ => []);
      assert s[..n - 1] == seq(n - 1, _ => []);
      TotalOfNothing(n - 1);
    }
  }

  /** The counters that a burst or a refresh leaves alone. */
  function Requests(st: Stats): (nat, nat, nat, nat) { (st.nbReads, st.nbWrites, st.forwarded, st.merged) }

  /** How long so many bursts keep the data bus busy. */
  function BusyFor(p: Params, bursts: nat): int
    requires p.mtps > 0
  {
    bursts * p.BurstPs()
  }

  /** The counters agree with the commands that were sent. */
  ghost predicate Counts(p: Params, st: Stats, t: Tally)
    requires p.mtps > 0
  {
    && st.bursts == t.cols && st.rowMisses + st.rowConflicts == t.acts && st.refreshes == t.refs
    && st.rowConflicts == t.pres
    && st.rowHits + st.rowMisses + st.rowConflicts == st.bursts
    && st.busyPs == BusyFor(p, st.bursts)
  }

  /** Refreshing sends no ACT and no column command. */
  lemma {:induction false} RefreshTally(p: Params, s: Line, t: int)
    requires p.tREFI > 0
    ensures TallyOf(RefreshAll(p, s, t).tr).cols == TallyOf(s.tr).cols
    ensures TallyOf(RefreshAll(p, s, t).tr).acts == TallyOf(s.tr).acts
    ensures TallyOf(RefreshAll(p, s, t).tr).pres == TallyOf(s.tr).pres
    decreases if s.c.nextRefresh <= t then t - s.c.nextRefresh + 1 else 0
  {
    hide TallyOf, RefreshOne;
    if s.c.nextRefresh <= t {
      OneRefreshTally(p, s);
      RefreshTally(p, RefreshOne(p, s), t);
    }
  }

  lemma OneRefreshTally(p: Params, s: Line)
    ensures TallyOf(RefreshOne(p, s).tr).cols == TallyOf(s.tr).cols
    ensures TallyOf(RefreshOne(p, s).tr).acts == TallyOf(s.tr).acts
    ensures TallyOf(RefreshOne(p, s).tr).pres == TallyOf(s.tr).pres
    ensures RefreshOne(p, s).c.nextRefresh == s.c.nextRefresh + p.tREFI
  {
    hide TallyOf, RefOf, RefStart, CloseAll, ReadyAt, StartOver, AnyOpen;
    var h1 := s.tr + PreAllOf(p, s.c);
    TallyAppend(s.tr, PreAllOf(p, s.c));
    TallyAppend(h1, [RefOf(p, s.c)]);
    NothingElse(PreAllOf(p, s.c));
    NothingElse([RefOf(p, s.c)]);
  }

  lemma NothingElse(h: seq<Cmd>)
    requires |h| <= 1 && forall c :: c in h ==> c.PreAll? || c.Ref?
    ensures TallyOf(h).cols == 0 && TallyOf(h).acts == 0 && TallyOf(h).pres == 0
  {
    if h != [] { assert h[0] in h && h[..0] == []; }
  }

  /** What a committed plan adds to the tally. */
  lemma BurstTally(h: seq<Cmd>, pl: Plan, w: bool)
    ensures TallyOf(h + CommandsOf(pl, w)) ==
            Tally(TallyOf(h).cols + 1, TallyOf(h).acts + (if pl.kind.Hit? then 0 else 1), TallyOf(h).refs,
                  TallyOf(h).pres + (if pl.kind.Conflict? then 1 else 0))
  {
    TallyAppend(h, PreOf(pl));
    TallyAppend(h + PreOf(pl), ActOf(pl));
    TallyAppend(h + PreOf(pl) + ActOf(pl), [ColOf(pl, w)]);
    assert h + CommandsOf(pl, w) == h + PreOf(pl) + ActOf(pl) + [ColOf(pl, w)];
  }

  /** The counters after a burst that `n` refreshes preceded. */
  function CountBurst(p: Params, st: Stats, pl: Plan, n: nat): Stats
    requires p.mtps > 0
  {
    var st' := st.(bursts := st.bursts + 1, busyPs := st.busyPs + p.BurstPs(), refreshes := st.refreshes + n);
    match pl.kind
    case Hit => st'.(rowHits := st.rowHits + 1)
    case Conflict => st'.(rowConflicts := st.rowConflicts + 1)
    case Miss => st'.(rowMisses := st.rowMisses + 1)
  }

  lemma CountBurstAdds(p: Params, st: Stats, pl: Plan, n: nat)
    requires p.mtps > 0
    requires st.rowHits + st.rowMisses + st.rowConflicts == st.bursts && st.busyPs == BusyFor(p, st.bursts)
    ensures var st' := CountBurst(p, st, pl, n);
            && st'.bursts == st.bursts + 1 && st'.refreshes == st.refreshes + n
            && st'.rowMisses + st'.rowConflicts == st.rowMisses + st.rowConflicts + (if pl.kind.Hit? then 0 else 1)
            && st'.rowConflicts == st.rowConflicts + (if pl.kind.Conflict? then 1 else 0)
            && st'.rowHits + st'.rowMisses + st'.rowConflicts == st'.bursts && st'.busyPs == BusyFor(p, st'.bursts)
            && Requests(st') == Requests(st)
  {
    Distribute(st.bursts, 1, p.BurstPs());
  }

  /** Every channel's command history is legal and summarised by its state; the counters count it. */
  ghost predicate CoreOf(p: Params, fields: seq<Field>, chan: seq<Channel>, trace: seq<seq<Cmd>>, st: Stats) {
    && Geometry(p, fields) && Runs(p)
    && |chan| == |trace| == p.channels
    && (forall ch: nat :: ch < |chan| ==> Sound(p, Line(chan[ch], trace[ch])) && Shaped(p, chan[ch]))
    && Counts(p, st, Total(trace))
  }

  /** It holds of an engine just made. */
  lemma FreshIsCore(p: Params, fields: seq<Field>)
    requires Geometry(p, fields) && Runs(p)
    ensures CoreOf(p, fields, seq(p.channels, _ => FreshChannel(p)), seq(p.channels, _ => []), NO_STATS)
  {
    FreshIsReady(p, fields);
    TotalOfNothing(p.channels);
    hide Geometry, Runs, FreshChannel, Sound, Shaped, Total, Counts;
  }

  lemma FreshIsReady(p: Params, fields: seq<Field>)
    requires Geometry(p, fields) && Runs(p)
    ensures p.channels >= 0 && p.mtps > 0 && Sound(p, Line(FreshChannel(p), [])) && Shaped(p, FreshChannel(p))
    ensures Counts(p, NO_STATS, Tally(0, 0, 0, 0))
  {
    LocateInRange(p, fields, 0);
    hide Geometry, Sound, IsPow2;
    FreshIsSound(p);
  }

  /** What the methods need of it. */
  lemma CoreFacts(p: Params, fields: seq<Field>, chan: seq<Channel>, trace: seq<seq<Cmd>>, st: Stats)
    requires CoreOf(p, fields, chan, trace, st)
    ensures p.ranks == 1 && p.TimingsOk() && RefreshFits(p) && IsPow2(p.BurstBytes()) && Geometry(p, fields)
    ensures |chan| == |trace| == p.channels
    ensures forall ch: nat :: ch < |chan| ==> Sound(p, Line(chan[ch], trace[ch])) && Shaped(p, chan[ch])
    ensures st.rowHits + st.rowMisses + st.rowConflicts == st.bursts && st.busyPs == BusyFor(p, st.bursts)
  {
  }

  lemma CoreCounts(p: Params, fields: seq<Field>, chan: seq<Channel>, trace: seq<seq<Cmd>>, st: Stats)
    requires CoreOf(p, fields, chan, trace, st)
    ensures p.mtps > 0 && |chan| == |trace| && p.BurstBytes() > 0
    ensures st.rowHits + st.rowMisses + st.rowConflicts == st.bursts && st.busyPs == BusyFor(p, st.bursts)
  {
  }

  lemma CoreClock(p: Params, fields: seq<Field>, chan: seq<Channel>, trace: seq<seq<Cmd>>, st: Stats)
    requires CoreOf(p, fields, chan, trace, st)
    ensures 0 <= p.tCK && p.BurstBytes() > 0
  {
  }

  lemma AlignPositive(p: Params, fields: seq<Field>, chan: seq<Channel>, trace: seq<seq<Cmd>>, st: Stats)
    requires CoreOf(p, fields, chan, trace, st)
    ensures p.BurstBytes() > 0 && AlignOf(p) > 0
  {
  }

  lemma WaterMarks(p: Params, fields: seq<Field>, chan: seq<Channel>, trace: seq<seq<Cmd>>, st: Stats)
    requires CoreOf(p, fields, chan, trace, st) && p.wqDepth > 0
    ensures 0 < p.wqLow <= p.wqHigh < p.wqDepth
  {
  }

  /** Requests are not part of what the commands determine. */
  lemma CoreRequests(p: Params, fields: seq<Field>, chan: seq<Channel>, trace: seq<seq<Cmd>>, st: Stats, st': Stats)
    requires CoreOf(p, fields, chan, trace, st)
    requires st' == st.(nbReads := st'.nbReads, nbWrites := st'.nbWrites, forwarded := st'.forwarded,
                        merged := st'.merged)
    ensures CoreOf(p, fields, chan, trace, st')
  {
  }

  /** Puts a line back where it came from, counted. */
  lemma CoreUpdate(p: Params, fields: seq<Field>, chan: seq<Channel>, trace: seq<seq<Cmd>>, st: Stats,
                   ch: nat, s: Line, st': Stats)
    requires CoreOf(p, fields, chan, trace, st) && ch < |chan|
    requires Sound(p, s) && Shaped(p, s.c)
    requires var t, u := TallyOf(trace[ch]), TallyOf(s.tr);
             && st'.bursts - st.bursts == u.cols - t.cols
             && (st'.rowMisses + st'.rowConflicts) - (st.rowMisses + st.rowConflicts) == u.acts - t.acts
             && st'.refreshes - st.refreshes == u.refs - t.refs
             && st'.rowConflicts - st.rowConflicts == u.pres - t.pres
    requires st'.rowHits + st'.rowMisses + st'.rowConflicts == st'.bursts && st'.busyPs == BusyFor(p, st'.bursts)
    ensures CoreOf(p, fields, chan[ch := s.c], trace[ch := s.tr], st')
  {
    hide Sound, Legal, Geometry, Runs, TallyOf, Shaped;
    TotalUpdate(trace, ch, s.tr);
  }

  /* ---- The write queue ---- */

  /**
    The slots of the queue. Writes are accepted and sent in one order: `sent[j]` is the data end
    of the j-th accepted write, `leaving` the tail of `sent` still holding a slot. If arrivals
    never go back, the j-th write is accepted only once the data of write j - wqDepth, whose slot
    it takes, has left.
   */
  ghost predicate Slots(p: Params, wq: seq<QueuedWrite>, leaving: seq<int>, accepted: seq<int>, sent: seq<int>) {
    && |accepted| == |sent| + |wq|
    && |leaving| <= |sent| && leaving == sent[|sent| - |leaving|..]
    && (forall i :: 0 <= i < |wq| ==> accepted[|sent| + i] == wq[i].arrive)
    && |wq| + |leaving| <= Max(p.wqDepth, 0)
    && (p.wqDepth <= 0 ==> accepted == [])
  }

  ghost predicate Reused(p: Params, accepted: seq<int>, sent: seq<int>) {
    forall j :: 0 <= j < |accepted| && p.wqDepth <= j ==> j - p.wqDepth < |sent| && sent[j - p.wqDepth] <= accepted[j]
  }

  /** The slots given up from number `from` on were given up by the time of the last arrival. */
  ghost predicate GivenUp(leaving: seq<int>, sent: seq<int>, from: int, lastArrive: int) {
    forall x :: 0 <= x < |sent| - |leaving| && from <= x ==> sent[x] <= lastArrive
  }

  ghost predicate Apart(wq: seq<QueuedWrite>) {
    forall i, j :: 0 <= i < j < |wq| ==> wq[i].addr != wq[j].addr
  }

  ghost predicate IsQueued(wq: seq<QueuedWrite>, a: nat) { exists i :: 0 <= i < |wq| && wq[i].addr == a }

  /** The contents on their way: one per queued burst; memory is the DRAM overlaid with them. */
  ghost predicate Contents<V>(wq: seq<QueuedWrite>, pending: map<nat, V>, dram: map<nat, V>, mem: map<nat, V>) {
    && (forall a :: a in pending <==> IsQueued(wq, a))
    && mem == dram + pending
  }

  /** Sending the oldest write moves its content to the DRAM; the memory a reader sees is the same. */
  lemma SendOldest<V>(wq: seq<QueuedWrite>, pending: map<nat, V>, dram: map<nat, V>, mem: map<nat, V>)
    requires wq != [] && Apart(wq) && Contents(wq, pending, dram, mem)
    ensures var a := wq[0].addr;
            && a in pending && Apart(wq[1..])
            && Contents(wq[1..], pending - {a}, dram[a := pending[a]], mem)
  {
    var a := wq[0].addr;
    forall b ensures b in pending - {a} <==> IsQueued(wq[1..], b) {
      if b in pending && b != a {
        var i :| 0 <= i < |wq| && wq[i].addr == b;
        assert wq[1..][i - 1].addr == b;
      }
      if IsQueued(wq[1..], b) {
        var i :| 0 <= i < |wq[1..]| && wq[1..][i].addr == b;
        assert wq[i + 1].addr == b;
      }
    }
  }

  /** The slots when the oldest write, whose data ends at `end`, goes from the queue to `leaving`. */
  lemma SlotsSend(p: Params, wq: seq<QueuedWrite>, leaving: seq<int>, accepted: seq<int>, sent: seq<int>,
                  end: int, from: int, lastArrive: int)
    requires wq != [] && Slots(p, wq, leaving, accepted, sent)
    ensures Slots(p, wq[1..], leaving + [end], accepted, sent + [end])
    ensures Reused(p, accepted, sent) ==> Reused(p, accepted, sent + [end])
    ensures GivenUp(leaving, sent, from, lastArrive) ==> GivenUp(leaving + [end], sent + [end], from, lastArrive)
  {
    var s', l' := sent + [end], leaving + [end];
    assert l' == s'[|s'| - |l'|..];
    forall i | 0 <= i < |wq[1..]| ensures accepted[|s'| + i] == wq[1..][i].arrive {
      assert wq[1..][i] == wq[i + 1];
    }
  }

  /** Posting a write to a burst that is not queued. */
  lemma PostWrite<V>(wq: seq<QueuedWrite>, q: QueuedWrite, pending: map<nat, V>, dram: map<nat, V>, mem: map<nat, V>,
                     v: V)
    requires Apart(wq) && Contents(wq, pending, dram, mem) && q.addr !in pending
    ensures Apart(wq + [q]) && Contents(wq + [q], pending[q.addr := v], dram, mem[q.addr := v])
  {
    forall b ensures b in pending[q.addr := v] <==> IsQueued(wq + [q], b) {
      if b == q.addr { assert (wq + [q])[|wq|].addr == b; }
      if b in pending {
        var i :| 0 <= i < |wq| && wq[i].addr == b;
        assert (wq + [q])[i].addr == b;
      }
    }
  }

  /**
    What a run leaves behind: when each posted write was accepted and when its data ended, the
    latest arrival and whether arrivals ever went back; and the content of the DRAM, of the queue,
    and of the memory the writes add up to.
   */
  datatype History<V> = History(accepted: seq<int>, sent: seq<int>, lastArrive: int, inOrder: bool,
                                dram: map<nat, V>, pending: map<nat, V>, mem: map<nat, V>)

  /** The queue invariant; `from` is the first slot that has not been taken again. */
  ghost predicate PostedOf<V>(p: Params, wq: seq<QueuedWrite>, leaving: seq<int>, h: History<V>, from: int) {
    && Slots(p, wq, leaving, h.accepted, h.sent)
    && (h.inOrder ==> Reused(p, h.accepted, h.sent) && GivenUp(leaving, h.sent, from, h.lastArrive))
    && Apart(wq)
    && Contents(wq, h.pending, h.dram, h.mem)
  }

  /** The history after the write to `a` went out, its data ending at `end`. */
  ghost function Sent<V>(h: History<V>, a: nat, end: int): History<V> {
    if a in h.pending
    then h.(sent := h.sent + [end], dram := h.dram[a := h.pending[a]], pending := h.pending - {a})
    else h
  }

  lemma SendKeeps<V>(p: Params, wq: seq<QueuedWrite>, leaving: seq<int>, h: History<V>, end: int, from: int)
    requires wq != [] && PostedOf(p, wq, leaving, h, from)
    ensures wq[0].addr in h.pending
    ensures PostedOf(p, wq[1..], leaving + [end], Sent(h, wq[0].addr, end), from)
  {
    hide Slots, Reused, GivenUp, Apart, Contents;
    SendOldest(wq, h.pending, h.dram, h.mem);
    SlotsSend(p, wq, leaving, h.accepted, h.sent, end, from, h.lastArrive);
  }

  /**
    What a master can tell of the engine: the memory its writes add up to, when they were accepted,
    the arrivals, and how requests were answered. Refreshing and sending queued writes change none of it.
   */
  datatype View<V> = View(mem: map<nat, V>, accepted: seq<int>, lastArrive: int, inOrder: bool,
                          requests: (nat, nat, nat, nat))

  ghost function Seen<V>(h: History<V>, st: Stats): View<V> {
    View(h.mem, h.accepted, h.lastArrive, h.inOrder, Requests(st))
  }

  lemma SentUnseen<V>(h: History<V>, st: Stats, a: nat, end: int, st': Stats)
    requires Requests(st') == Requests(st)
    ensures Seen(Sent(h, a, end), st') == Seen(h, st)
  {
  }

  /** Giving up the oldest leaving slot at a time its data has ended. */
  lemma PopKeeps<V>(p: Params, wq: seq<QueuedWrite>, leaving: seq<int>, h: History<V>, from: int, from': int)
    requires leaving != [] && PostedOf(p, wq, leaving, h, from)
    requires from <= from' && (leaving[0] <= h.lastArrive || |h.sent| - |leaving| < from')
    ensures PostedOf(p, wq, leaving[1..], h, from')
  {
    var l' := leaving[1..];
    assert l' == h.sent[|h.sent| - |l'|..];
    assert leaving[0] == h.sent[|h.sent| - |leaving|];
  }

  /** Accepting a write at `t`, into a slot whose data has left. */
  ghost function Accepted<V>(h: History<V>, t: int, a: nat, v: V): History<V> {
    h.(accepted := h.accepted + [t], pending := h.pending[a := v], mem := h.mem[a := v])
  }

  lemma AcceptKeeps<V>(p: Params, wq: seq<QueuedWrite>, leaving: seq<int>, h: History<V>, t: int, a: nat, v: V)
    requires PostedOf(p, wq, leaving, h, |h.accepted| + 1 - p.wqDepth)
    requires p.wqDepth > 0 && |wq| + |leaving| < p.wqDepth && !IsQueued(wq, a)
    requires SlotFree(p, h, t)
    ensures PostedOf(p, wq + [QueuedWrite(t, a)], leaving, Accepted(h, t, a, v), |h.accepted| + 1 - p.wqDepth)
  {
    PostWrite(wq, QueuedWrite(t, a), h.pending, h.dram, h.mem, v);
    var wq', acc' := wq + [QueuedWrite(t, a)], h.accepted + [t];
    forall i | 0 <= i < |wq'| ensures acc'[|h.sent| + i] == wq'[i].arrive {}
  }

  /** Changing the content of a burst that is queued already. */
  ghost function Merged<V>(h: History<V>, a: nat, v: V): History<V> {
    h.(pending := h.pending[a := v], mem := h.mem[a := v])
  }

  lemma MergeKeeps<V>(p: Params, wq: seq<QueuedWrite>, leaving: seq<int>, h: History<V>, a: nat, v: V, from: int)
    requires PostedOf(p, wq, leaving, h, from) && IsQueued(wq, a)
    ensures PostedOf(p, wq, leaving, Merged(h, a, v), from)
  {
  }

  ghost function Arrived<V>(h: History<V>, t: int): History<V> {
    h.(lastArrive := Max(h.lastArrive, t), inOrder := h.inOrder && h.lastArrive <= t)
  }

  lemma ArriveKeeps<V>(p: Params, wq: seq<QueuedWrite>, leaving: seq<int>, h: History<V>, t: int, from: int)
    requires PostedOf(p, wq, leaving, h, from)
    ensures PostedOf(p, wq, leaving, Arrived(h, t), from)
  {
  }

  /** The slot the next accepted write takes has been left by `t`. */
  ghost predicate SlotFree<V>(p: Params, h: History<V>, t: int) {
    var j := |h.accepted|;
    h.inOrder && p.wqDepth <= j ==> j - p.wqDepth < |h.sent| && h.sent[j - p.wqDepth] <= t
  }

  /** Time `t` is when the write left whose slot the next one takes. */
  ghost predicate TakesSlot<V>(p: Params, h: History<V>, t: int) {
    var slot := |h.accepted| - p.wqDepth;
    0 <= slot < |h.sent| && t == h.sent[slot]
  }

  lemma EntersThen<V>(p: Params, h: History<V>, arrive: int, t: int)
    requires SlotFree(p, h, t) && arrive <= t && (t == arrive || TakesSlot(p, h, t))
    ensures EntersAt(h.sent, |h.accepted| - p.wqDepth, h.inOrder, arrive, t)
  {
  }

  lemma EntersLater(sent: seq<int>, sent': seq<int>, slot: int, inOrder: bool, arrive: int, t: int)
    requires EntersAt(sent, slot, inOrder, arrive, t) && sent <= sent'
    ensures EntersAt(sent', slot, inOrder, arrive, t)
  {
  }

  /** A free slot: the write it belonged to had left by the last arrival. */
  lemma FreeSlot<V>(p: Params, wq: seq<QueuedWrite>, leaving: seq<int>, h: History<V>, t: int)
    requires h.inOrder ==> h.lastArrive <= t
    requires PostedOf(p, wq, leaving, h, |h.accepted| - p.wqDepth) && |wq| + |leaving| < p.wqDepth
    ensures PostedOf(p, wq, leaving, h, |h.accepted| + 1 - p.wqDepth)
    ensures SlotFree(p, h, t)
  {
  }

  /** In a full queue the oldest leaving write holds the slot the next one gets. */
  lemma FullQueue<V>(p: Params, wq: seq<QueuedWrite>, leaving: seq<int>, h: History<V>, t: int)
    requires leaving != [] && leaving[0] <= t
    requires PostedOf(p, wq, leaving, h, |h.accepted| - p.wqDepth) && |wq| + |leaving| >= p.wqDepth > 0
    ensures PostedOf(p, wq, leaving[1..], h, |h.accepted| + 1 - p.wqDepth)
    ensures |wq| + |leaving[1..]| < p.wqDepth && SlotFree(p, h, t) && TakesSlot(p, h, leaving[0])
  {
    PopKeeps(p, wq, leaving, h, |h.accepted| - p.wqDepth, |h.accepted| + 1 - p.wqDepth);
  }

  /** Emptied slots keep the bound on the queue; so do writes already queued. */
  lemma PostedBounds<V>(p: Params, wq: seq<QueuedWrite>, leaving: seq<int>, h: History<V>, from: int)
    requires PostedOf(p, wq, leaving, h, from)
    ensures |wq| + |leaving| <= Max(p.wqDepth, 0)
    ensures forall a :: IsQueued(wq, a) <==> a in h.pending
    ensures h.mem == h.dram + h.pending
    ensures forall a :: !IsQueued(wq, a) ==> Lookup(h.dram, a) == Lookup(h.mem, a)
  {
  }

  /* ---- What is done stays done ---- */

  /** The commands sent so far, and the times at which posted writes have left. */
  datatype Past = Past(trace: seq<seq<Cmd>>, sent: seq<int>)

  ghost predicate Grown(was: Past, now: Past) {
    && |was.trace| == |now.trace| && was.sent <= now.sent
    && forall ch: nat :: ch < |was.trace| ==> was.trace[ch] <= now.trace[ch]
  }

  lemma GrownOn(a: Past, b: Past, c: Past)
    requires Grown(a, b) && Grown(b, c)
    ensures Grown(a, c)
  {
  }

  lemma GrownIs(a: Past, b: Past)
    requires Grown(a, b)
    ensures a.sent <= b.sent
  {
  }

  lemma GrownSame(a: Past)
    ensures Grown(a, a)
  {
  }

  lemma GrownAt(a: Past, ch: nat, tr: seq<Cmd>)
    requires ch < |a.trace| && a.trace[ch] <= tr
    ensures Grown(a, a.(trace := a.trace[ch := tr]))
  {
  }

  lemma GrownSent(a: Past, b: Past, end: int)
    requires Grown(a, b)
    ensures Grown(a, b.(sent := b.sent + [end]))
  {
  }

  lemma {:induction false} RefreshAppends(p: Params, s: Line, t: int)
    ensures s.tr <= RefreshTo(p, s, t).tr
    decreases if s.c.nextRefresh <= t then t - s.c.nextRefresh + 1 else 0
  {
    if p.tREFI > 0 && s.c.nextRefresh <= t { RefreshAppends(p, RefreshOne(p, s), t); }
  }

  lemma {:induction false} ReplanAppends(p: Params, s: Line, k: Coord, t: int, w: bool)
    requires Ready(p, s.c, k) && RefreshFits(p)
    ensures s.tr <= Replan(p, s, k, t, w).tr
    decreases if Settled(s.c) then 0 else 1, Max(DramBurst.Gap(p, s.c, k, t, w) + 1, 0)
  {
    hide RefreshTo, Settled, DramBurst.Gap, PlanOf;
    var pl := PlanOf(p, s.c, k, t, w);
    if RunsIntoRefresh(p, s.c, pl) {
      ReplanTurn(p, s, k, t, w);
      RefreshAppends(p, s, pl.col);
      ReplanAppends(p, RefreshTo(p, s, pl.col), k, t, w);
    } else {
      ReplanDone(p, s, k, t, w);
    }
  }

  lemma BurstAppends(p: Params, s: Line, k: Coord, arrive: int, w: bool)
    requires Ready(p, s.c, k) && RefreshFits(p)
    ensures s.tr <= Burst(p, s, k, arrive, w).tr
  {
    var t := Max(arrive, s.c.order);
    BeforeBurstIs(p, s, k, arrive, w);
    hide BeforeBurst, RefreshTo, Replan, PlanOf, CommitOf, CommandsOf;
    RefreshAppends(p, s, t);
    ReplanAppends(p, RefreshTo(p, s, t), k, t, w);
  }

  /** One burst, from one state of the channels to the next. */
  ghost predicate Issued(p: Params, fields: seq<Field>, c0: seq<Channel>, t0: seq<seq<Cmd>>, c1: seq<Channel>,
                         t1: seq<seq<Cmd>>,
                         arrive: int, addr: nat, w: bool, end: int)
  {
    && (NeverIsFar(p) && 0 <= arrive ==> Promptly(p, fields, c0, t0, c1, t1, arrive, addr, w, end))
    && p.BurstBytes() > 0 && |c0| == |t0| == |c1| == |t1|
    && var k := Locate(p, fields, addr);
       && k.ch < |c0| && Ready(p, c0[k.ch], k) && RefreshFits(p)
       && var s := Line(c0[k.ch], t0[k.ch]);
          && c1 == c0[k.ch := Burst(p, s, k, arrive, w).c] && t1 == t0[k.ch := Burst(p, s, k, arrive, w).tr]
          && end == BurstPlan(p, s, k, arrive, w).end
  }

  /**
    The burst by what the channel is sent: from the later of its arrival and the first command of the burst
    before it, the refreshes that are due or in the way and its own commands, each as soon as the device
    allows; it is through when its data is. No other channel notices.
   */
  ghost predicate Promptly(p: Params, fields: seq<Field>, c0: seq<Channel>, t0: seq<seq<Cmd>>, c1: seq<Channel>,
                           t1: seq<seq<Cmd>>, arrive: int, addr: nat, w: bool, end: int)
  {
    && p.BurstBytes() > 0 && p.mtps > 0 && |c0| == |t0| == |c1| == |t1|
    && var k := Locate(p, fields, addr);
       && k.ch < |c0| && (forall ch :: 0 <= ch < |c0| && ch != k.ch ==> c1[ch] == c0[ch] && t1[ch] == t0[ch])
       && exists h: seq<Cmd>, x: CommandTimes :: PromptOn(p, Line(c0[k.ch], t0[k.ch]), Line(c1[k.ch], t1[k.ch]), k,
                                                          arrive, w, end, h, x)
  }

  lemma IssuedHere(p: Params, fields: seq<Field>, c0: seq<Channel>, t0: seq<seq<Cmd>>, arrive: int, addr: nat, w: bool,
                   k: Coord, s': Line, pl: Plan)
    requires p.BurstBytes() > 0 && k.ch < |c0| == |t0| && k == Locate(p, fields, addr)
    requires RefreshFits(p) && Ready(p, c0[k.ch], k) && Sound(p, Line(c0[k.ch], t0[k.ch]))
    requires var s := Line(c0[k.ch], t0[k.ch]);
             s' == Burst(p, s, k, arrive, w) && pl == BurstPlan(p, s, k, arrive, w)
    ensures Issued(p, fields, c0, t0, c0[k.ch := s'.c], t0[k.ch := s'.tr], arrive, addr, w, pl.end)
  {
    hide RefreshFits, Locate, Burst, BurstPlan, PromptOn, Sound, NeverIsFar, Promptly;
    var s := Line(c0[k.ch], t0[k.ch]);
    if NeverIsFar(p) && 0 <= arrive {
      BurstIsPrompt(p, s, k, arrive, w);
      PromptlyHere(p, fields, c0, t0, arrive, addr, w, s', pl.end, BeforeBurst(p, s, k, arrive, w).tr, TimesOf(pl));
    }
  }

  lemma PromptlyHere(p: Params, fields: seq<Field>, c0: seq<Channel>, t0: seq<seq<Cmd>>, arrive: int, addr: nat,
                     w: bool, s': Line, end: int, h: seq<Cmd>, x: CommandTimes)
    requires p.BurstBytes() > 0 && p.mtps > 0 && |c0| == |t0|
    requires var k := Locate(p, fields, addr);
             k.ch < |c0| && PromptOn(p, Line(c0[k.ch], t0[k.ch]), s', k, arrive, w, end, h, x)
    ensures var ch := Locate(p, fields, addr).ch;
            Promptly(p, fields, c0, t0, c0[ch := s'.c], t0[ch := s'.tr], arrive, addr, w, end)
  {
    hide Locate, PromptOn;
    var k := Locate(p, fields, addr);
    var c1, t1 := c0[k.ch := s'.c], t0[k.ch := s'.tr];
    assert PromptOn(p, Line(c0[k.ch], t0[k.ch]), Line(c1[k.ch], t1[k.ch]), k, arrive, w, end, h, x);
  }

  /* ---- The idle drain ---- */

  /** The queue, the channels and what they have been sent. */
  datatype Flow = Flow(wq: seq<QueuedWrite>, chan: seq<Channel>, trace: seq<seq<Cmd>>)

  /** The oldest queued write has a channel to go to. */
  ghost predicate HasOldest(p: Params, fields: seq<Field>, f: Flow) {
    && f.wq != [] && p.BurstBytes() > 0 && |f.chan| == |f.trace|
    && var k := Locate(p, fields, f.wq[0].addr); k.ch < |f.chan| && Ready(p, f.chan[k.ch], k)
  }

  /** When it could start: once it is accepted, behind the burst before it. */
  ghost function StartAt(p: Params, fields: seq<Field>, f: Flow): int
    requires HasOldest(p, fields, f)
  {
    Max(f.wq[0].arrive, f.chan[Locate(p, fields, f.wq[0].addr).ch].order)
  }

  /** The channels with every refresh run that is due by then on that write's channel. */
  ghost function UpToStart(p: Params, fields: seq<Field>, f: Flow): Flow
    requires HasOldest(p, fields, f)
  {
    var ch := Locate(p, fields, f.wq[0].addr).ch;
    var s := RefreshTo(p, Line(f.chan[ch], f.trace[ch]), StartAt(p, fields, f));
    f.(chan := f.chan[ch := s.c], trace := f.trace[ch := s.tr])
  }

  /** Its command would go out before `t`. */
  ghost predicate InTime(p: Params, fields: seq<Field>, f: Flow, t: int) {
    && HasOldest(p, fields, f) && StartAt(p, fields, f) < t
    && var g, k := UpToStart(p, fields, f), Locate(p, fields, f.wq[0].addr);
       Ready(p, g.chan[k.ch], k) && PlanOf(p, g.chan[k.ch], k, StartAt(p, fields, f), true).col < t
  }

  /** The oldest write is sent, since its command goes out before `t`. */
  ghost predicate Goes(p: Params, fields: seq<Field>, f: Flow, f': Flow, t: int) {
    && InTime(p, fields, f, t) && f'.wq == f.wq[1..]
    && var g := UpToStart(p, fields, f);
       exists end :: Issued(p, fields, g.chan, g.trace, f'.chan, f'.trace, StartAt(p, fields, f), f.wq[0].addr, true,
                            end)
  }

  /** Nothing goes; the refreshes due by the oldest write's start may have been run to find that out. */
  ghost predicate Stays(p: Params, fields: seq<Field>, f: Flow, f': Flow, t: int) {
    && !InTime(p, fields, f, t)
    && (f.wq != [] ==> HasOldest(p, fields, f))
    && f' == if f.wq != [] && StartAt(p, fields, f) < t then UpToStart(p, fields, f) else f
  }

  ghost predicate DrainedBy(p: Params, fields: seq<Field>, f: Flow, f': Flow, t: int, n: nat)
    decreases n
  {
    if n == 0 then f' == f
    else exists m: Flow :: DrainedBy(p, fields, f, m, t, n - 1) && Goes(p, fields, m, f', t)
  }

  /** Queued writes are sent, oldest first, as long as the next one's command goes out before `t`: no more, no fewer. */
  ghost predicate Drains(p: Params, fields: seq<Field>, f: Flow, f': Flow, t: int) {
    exists m: Flow, n :: DrainedBy(p, fields, f, m, t, n) && Stays(p, fields, m, f', t)
  }

  lemma NothingDrains(p: Params, fields: seq<Field>, f: Flow, t: int)
    ensures DrainedBy(p, fields, f, f, t, 0)
    ensures f.wq == [] ==> Drains(p, fields, f, f, t)
  {
    hide Locate, HasOldest;
    if f.wq == [] {
      assert !InTime(p, fields, f, t) by { NoOldest(p, fields, f); }
      assert DrainedBy(p, fields, f, f, t, 0) && Stays(p, fields, f, f, t);
    }
  }

  lemma NoOldest(p: Params, fields: seq<Field>, f: Flow)
    requires f.wq == []
    ensures !HasOldest(p, fields, f)
  {
  }

  lemma EmptyStays(p: Params, fields: seq<Field>, f: Flow, t: int)
    requires f.wq == []
    ensures Stays(p, fields, f, f, t)
  {
    NoOldest(p, fields, f);
  }

  lemma OldestHere(p: Params, fields: seq<Field>, f: Flow, st: Stats)
    requires CoreOf(p, fields, f.chan, f.trace, st) && f.wq != []
    ensures HasOldest(p, fields, f)
  {
    CoreFacts(p, fields, f.chan, f.trace, st);
    LocateInRange(p, fields, f.wq[0].addr);
    hide CoreOf, Sound, Geometry, Locate;
  }

  lemma TooLate(p: Params, fields: seq<Field>, f: Flow, t: int)
    requires HasOldest(p, fields, f) && StartAt(p, fields, f) >= t
    ensures Stays(p, fields, f, f, t)
  {
    hide Locate, Ready, UpToStart;
  }

  /** The flow after `Refresh` on the oldest write's channel. */
  lemma RefreshedHere(p: Params, fields: seq<Field>, f: Flow, g: Flow, st: Stats)
    requires HasOldest(p, fields, f) && CoreOf(p, fields, g.chan, g.trace, st)
    requires g.wq == f.wq && |g.chan| == |f.chan| == |g.trace|
    requires var ch := Locate(p, fields, f.wq[0].addr).ch;
             && Line(g.chan[ch], g.trace[ch]) ==
                  RefreshTo(p, Line(f.chan[ch], f.trace[ch]), StartAt(p, fields, f))
             && forall i: nat :: i < |f.chan| && i != ch ==>
                  Line(g.chan[i], g.trace[i]) == Line(f.chan[i], f.trace[i])
    ensures g == UpToStart(p, fields, f)
  {
    hide Locate, RefreshTo, CoreOf, Ready;
    var u := UpToStart(p, fields, f);
    assert forall i: nat {:trigger g.chan[i]} :: i < |f.chan| ==> g.chan[i] == u.chan[i];
    assert forall i: nat {:trigger g.trace[i]} :: i < |f.chan| ==> g.trace[i] == u.trace[i];
    assert g.chan == u.chan && g.trace == u.trace;
  }

  lemma NotInTime(p: Params, fields: seq<Field>, f: Flow, g: Flow, t: int)
    requires HasOldest(p, fields, f) && g == UpToStart(p, fields, f) && StartAt(p, fields, f) < t
    requires var k := Locate(p, fields, f.wq[0].addr);
             Ready(p, g.chan[k.ch], k) && PlanOf(p, g.chan[k.ch], k, StartAt(p, fields, f), true).col >= t
    ensures Stays(p, fields, f, g, t)
  {
    hide Locate, Ready, UpToStart, PlanOf;
  }

  lemma Went(p: Params, fields: seq<Field>, f: Flow, g: Flow, f': Flow, t: int, end: int)
    requires HasOldest(p, fields, f) && g == UpToStart(p, fields, f) && StartAt(p, fields, f) < t
    requires var k := Locate(p, fields, f.wq[0].addr);
             Ready(p, g.chan[k.ch], k) && PlanOf(p, g.chan[k.ch], k, StartAt(p, fields, f), true).col < t
    requires f'.wq == f.wq[1..]
    requires Issued(p, fields, g.chan, g.trace, f'.chan, f'.trace, StartAt(p, fields, f), f.wq[0].addr, true, end)
    ensures Goes(p, fields, f, f', t)
  {
    hide Locate, Ready, UpToStart, PlanOf, Issued;
  }

  lemma StaysKeepsQueue(p: Params, fields: seq<Field>, f: Flow, f': Flow, t: int)
    requires Stays(p, fields, f, f', t)
    ensures f'.wq == f.wq
  {
  }

  lemma GoesFirst(p: Params, fields: seq<Field>, f: Flow, f': Flow, t: int)
    requires Goes(p, fields, f, f', t)
    ensures f.wq != [] && f'.wq == f.wq[1..]
  {
  }

  lemma OneMoreGoes(p: Params, fields: seq<Field>, f: Flow, m: Flow, f': Flow, t: int, n: nat)
    requires DrainedBy(p, fields, f, m, t, n) && Goes(p, fields, m, f', t)
    ensures DrainedBy(p, fields, f, f', t, n + 1)
  {
  }

  lemma DrainEnds(p: Params, fields: seq<Field>, f: Flow, m: Flow, f': Flow, t: int, n: nat)
    requires DrainedBy(p, fields, f, m, t, n) && Stays(p, fields, m, f', t)
    ensures Drains(p, fields, f, f', t)
  {
    hide DrainedBy, Stays;
  }

  /** Such a burst has its column command, its data ending at `end`, behind what the traces held before. */
  ghost predicate Transferred(p: Params, fields: seq<Field>, before: seq<seq<Cmd>>, trace: seq<seq<Cmd>>, addr: nat,
                              w: bool, end: int) {
    && p.BurstBytes() > 0
    && var k := Locate(p, fields, addr);
       && k.ch < |before| && k.ch < |trace|
       && exists j :: |before[k.ch]| <= j < |trace[k.ch]| && IsTransfer(p, k, trace[k.ch][j], w, end)
  }

  predicate IsTransfer(p: Params, k: Coord, c: Cmd, w: bool, end: int) {
    c.Col? && c.write == w && c.row == k.row && c.bank == BankOf(p, k) && c.end == end
  }

  lemma IssuedFacts(p: Params, fields: seq<Field>, c0: seq<Channel>, t0: seq<seq<Cmd>>, c1: seq<Channel>,
                    t1: seq<seq<Cmd>>,
                    arrive: int, addr: nat, w: bool, end: int)
    requires Issued(p, fields, c0, t0, c1, t1, arrive, addr, w, end)
    ensures forall sent :: Grown(Past(t0, sent), Past(t1, sent))
    ensures Transferred(p, fields, t0, t1, addr, w, end) && arrive <= end
  {
    var k := Locate(p, fields, addr);
    var s := Line(c0[k.ch], t0[k.ch]);
    hide Burst, BurstPlan, Locate, RefreshFits;
    BurstAppends(p, s, k, arrive, w);
    BurstDelivers(p, s, k, arrive, w);
    BurstIsLonger(p, s, k, arrive, w);
    var tr := t1[k.ch];
    assert IsTransfer(p, k, tr[|tr| - 1], w, end);
  }

  lemma BurstIsLonger(p: Params, s: Line, k: Coord, arrive: int, w: bool)
    requires Ready(p, s.c, k) && RefreshFits(p)
    ensures |s.tr| < |Burst(p, s, k, arrive, w).tr|
  {
    var t := Max(arrive, s.c.order);
    BeforeBurstIs(p, s, k, arrive, w);
    hide BeforeBurst, RefreshTo, Replan, PlanOf, CommitOf;
    RefreshAppends(p, s, t);
    ReplanAppends(p, RefreshTo(p, s, t), k, t, w);
  }

  lemma TransferredOn(p: Params, fields: seq<Field>, earlier: Past, before: Past, after: Past, later: Past, addr: nat,
                      w: bool, end: int)
    requires Grown(earlier, before) && Grown(after, later) &&
             Transferred(p, fields, before.trace, after.trace, addr, w, end)
    ensures Transferred(p, fields, earlier.trace, later.trace, addr, w, end)
  {
    var trace, trace' := after.trace, later.trace;
    hide Locate, IsTransfer;
    var ch := Locate(p, fields, addr).ch;
    var j :| |before.trace[ch]| <= j < |trace[ch]| && IsTransfer(p, Locate(p, fields, addr), trace[ch][j], w, end);
    assert trace'[ch][j] == trace[ch][j];
  }

  /**
    How a burst was answered: a write absorbed by a queued one or entering the queue, a read from the
    queue or from the DRAM.
   */
  datatype Answer = Absorbed | Entered | Forwarded | Delivered

  /**
    When a burst is answered. A write absorbed by a queued one, on arrival; a read from the queue,
    one clock later; a transfer, when its data ends; a write entering the queue, on arrival or when
    the write whose slot it takes has left -- the later of the two, if arrivals never go back.
   */
  ghost predicate Answered(p: Params, fields: seq<Field>, was: Past, now: Past, slot: int, inOrder: bool,
                           arrive: int, addr: nat, w: bool, how: Answer, d: int)
  {
    match how
    case Absorbed => w && d == arrive
    case Forwarded => !w && d == arrive + p.tCK
    case Delivered => Transferred(p, fields, was.trace, now.trace, addr, w, d)
    case Entered => w && EntersAt(now.sent, slot, inOrder, arrive, d)
  }

  ghost predicate EntersAt(sent: seq<int>, slot: int, inOrder: bool, arrive: int, t: int) {
    && (t == arrive || (0 <= slot < |sent| && t == sent[slot]))
    && (inOrder && 0 <= slot ==> slot < |sent| && t == Max(arrive, sent[slot]))
  }

  lemma AnsweredOn(p: Params, fields: seq<Field>, earlier: Past, was: Past, now: Past, later: Past, slot: int,
                   inOrder: bool, inOrder': bool,
                   arrive: int, addr: nat, w: bool, how: Answer, d: int)
    requires Grown(earlier, was) && Grown(now, later) &&
             Answered(p, fields, was, now, slot, inOrder, arrive, addr, w, how, d)
    requires inOrder' ==> inOrder
    ensures Answered(p, fields, earlier, later, slot, inOrder', arrive, addr, w, how, d)
  {
    if how.Delivered? { hide Grown, Transferred; TransferredOn(p, fields, earlier, was, now, later, addr, w, d); }
  }

  lemma NotQueued(addr: nat)
    ensures !IsQueued([], addr)
  {
  }

  /** Above the high mark the queue is sent down until fewer than `wqLow` are left. */
  ghost function Batched(p: Params, wq: seq<QueuedWrite>): seq<QueuedWrite> {
    if 0 < p.wqLow <= p.wqHigh < |wq| then wq[|wq| - (p.wqLow - 1)..] else wq
  }

  /** What an answer does once the idle drain has brought the engine to `f`. */
  ghost predicate DrainedAs(p: Params, fields: seq<Field>, f: Flow, f': Flow, arrive: int, addr: nat, how: Answer,
                            d: int)
  {
    && (IsQueued(f.wq, addr) <==> how.Absorbed? || how.Forwarded?)
    && match how
       case Delivered => f'.wq == f.wq && Issued(p, fields, f.chan, f.trace, f'.chan, f'.trace, arrive, addr, false, d)
       case Entered => f'.wq == Batched(p, f.wq + [QueuedWrite(d, addr)])
       case _ => f' == f
  }

  /**
    With a queue: the idle drain first, then the answer. A read that is not queued is then one burst of the
    DRAM and no more.
   */
  ghost predicate QueuedAs(p: Params, fields: seq<Field>, f: Flow, f': Flow, arrive: int, addr: nat, how: Answer,
                            d: int)
  {
    exists m: Flow :: Drains(p, fields, f, m, arrive) && DrainedAs(p, fields, m, f', arrive, addr, how, d)
  }

  lemma AnsweredAs(p: Params, fields: seq<Field>, f: Flow, m: Flow, f': Flow, arrive: int, addr: nat, how: Answer,
                   d: int)
    requires Drains(p, fields, f, m, arrive) && DrainedAs(p, fields, m, f', arrive, addr, how, d)
    ensures QueuedAs(p, fields, f, f', arrive, addr, how, d)
  {
  }

  /** A new arrival; `inOrder` while none came before the one it follows, or before time 0. */
  ghost function ArriveView<V>(s: View<V>, t: int): View<V> {
    s.(lastArrive := Max(s.lastArrive, t), inOrder := s.inOrder && s.lastArrive <= t)
  }

  /** What answering does to the view: a write shows in the memory; an accepted one in the log; one counter moves. */
  ghost function AnswerView<V>(how: Answer, s: View<V>, addr: nat, v: V, done: int): View<V> {
    var (r, w, f, m) := s.requests;
    match how
    case Absorbed => s.(mem := s.mem[addr := v], requests := (r, w, f, m + 1))
    case Entered => s.(mem := s.mem[addr := v], accepted := s.accepted + [done])
    case Forwarded => s.(requests := (r, w, f + 1, m))
    case Delivered => s
  }

  lemma ViewLemmas<V>(h: History<V>, st: Stats, t: int, addr: nat, v: V)
    ensures Seen(Arrived(h, t), st) == ArriveView(Seen(h, st), t)
    ensures Seen(Accepted(h, t, addr, v), st) == AnswerView(Entered, Seen(h, st), addr, v, t)
    ensures Seen(Merged(h, addr, v), st.(merged := st.merged + 1)) == AnswerView(Absorbed, Seen(h, st), addr, v, t)
    ensures Seen(h, st.(forwarded := st.forwarded + 1)) == AnswerView(Forwarded, Seen(h, st), addr, v, t)
    ensures Seen(h, st) == AnswerView(Delivered, Seen(h, st), addr, v, t)
  {
  }

  lemma ArrivedFacts<V>(h: History<V>, t: int)
    ensures Arrived(h, t).mem == h.mem && Arrived(h, t).accepted == h.accepted && Arrived(h, t).sent == h.sent
    ensures t <= Arrived(h, t).lastArrive && (Arrived(h, t).inOrder ==> Arrived(h, t).lastArrive == t)
  {
  }

  lemma SeenFacts<V>(h: History<V>, st: Stats, h': History<V>, st': Stats)
    requires Seen(h, st) == Seen(h', st')
    ensures h.mem == h'.mem && h.accepted == h'.accepted && h.lastArrive == h'.lastArrive && h.inOrder == h'.inOrder
  {
  }

  lemma ViewFacts<V>(h: History<V>, st: Stats, h0: History<V>, st0: Stats, how: Answer, arrive: int, addr: nat, v: V,
                     done: int)
    requires Seen(h, st) == AnswerView(how, ArriveView(Seen(h0, st0), arrive), addr, v, done)
    ensures h.accepted == h0.accepted + (if how.Entered? then [done] else []) && (h.inOrder ==> h0.inOrder)
    ensures h.mem == if how.Absorbed? || how.Entered? then h0.mem[addr := v] else h0.mem
    ensures st.nbReads == st0.nbReads && st.nbWrites == st0.nbWrites
  {
  }

  /** A write that went straight to the DRAM: no queue. */
  ghost function Written<V>(h: History<V>, a: nat, v: V): History<V> {
    h.(dram := h.dram[a := v], mem := h.mem[a := v])
  }

  lemma WrittenKeeps<V>(p: Params, wq: seq<QueuedWrite>, leaving: seq<int>, h: History<V>, a: nat, v: V, from: int)
    requires PostedOf(p, wq, leaving, h, from) && p.wqDepth <= 0
    ensures PostedOf(p, wq, leaving, Written(h, a, v), from)
  {
  }

  /** What a flat memory answers. */
  function Lookup<V>(m: map<nat, V>, a: nat): Option<V> { if a in m then Some(m[a]) else None }

  /**
    An access part-way: the bursts gone through, how and when each was answered, what reads got, the
    latest of the times.
   */
  datatype Walk<V> = Walk(bursts: seq<nat>, got: seq<Option<V>>, how: seq<Answer>, times: seq<int>, done: int)

  /** Reads answered as a flat memory would, writes leaving what it would hold, `done` the slowest answer. */
  ghost predicate Walked<V>(was: map<nat, V>, mem: map<nat, V>, w: bool, data: nat -> V, arrive: int, k: Walk<V>) {
    && mem == (if w then Overlay(was, k.bursts, data) else was)
    && |k.got| == |k.times| == |k.how| == |k.bursts|
    && (!w ==> forall i :: 0 <= i < |k.bursts| ==> k.got[i] == Lookup(was, k.bursts[i]))
    && (forall d :: d in k.times ==> arrive <= d <= k.done)
    && (k.done == arrive || k.done in k.times) && arrive <= k.done
  }

  /** What an access can tell of the engine before and after. */
  datatype Snapshot<V> = Snapshot(mem: map<nat, V>, past: Past, accepted: seq<int>, inOrder: bool, wq: seq<QueuedWrite>,
                                  chan: seq<Channel>)

  /**
    One burst: the memory is a flat memory's, the answer comes when `Answered` says, and the DRAM is sent
    what `Once` says and no more.
   */
  ghost predicate AnsweredOnce<V>(p: Params, fields: seq<Field>, s: Snapshot<V>, s': Snapshot<V>, w: bool, v: V,
                                  arrive: int, addr: nat, how: Answer, got: Option<V>, d: int)
  {
    && s'.mem == (if w then s.mem[addr := v] else s.mem) && (!w ==> got == Lookup(s.mem, addr))
    && arrive <= d && Grown(s.past, s'.past)
    && s'.accepted == s.accepted + (if how.Entered? then [d] else []) && (s'.inOrder ==> s.inOrder)
    && Answered(p, fields, s.past, s'.past, |s.accepted| - p.wqDepth, s'.inOrder, arrive, addr, w, how, d)
    && Once(p, fields, FlowOf(s), FlowOf(s'), arrive, addr, w, how, d)
  }

  ghost function FlowOf<V>(s: Snapshot<V>): Flow { Flow(s.wq, s.chan, s.past.trace) }

  /** What one burst of an access does: by way of the queue, or straight to the DRAM if there is none. */
  ghost predicate Once(p: Params, fields: seq<Field>, f: Flow, f': Flow, arrive: int, addr: nat, w: bool, how: Answer,
                       d: int)
  {
    if p.wqDepth > 0 then w == (how.Absorbed? || how.Entered?) && QueuedAs(p, fields, f, f', arrive, addr, how, d)
    else how.Delivered? && f'.wq == f.wq &&
         Issued(p, fields, f.chan, f.trace, f'.chan, f'.trace, arrive, addr, w, d)
  }

  /** A whole access, burst after burst. */
  ghost predicate Accessed<V>(p: Params, fields: seq<Field>, s: Snapshot<V>, s': Snapshot<V>, w: bool, data: nat -> V,
                              arrive: int, k: Walk<V>) {
    && Walked(s.mem, s'.mem, w, data, arrive, k) && Grown(s.past, s'.past)
    && |s'.accepted| == |s.accepted| + Entries(k.how, |k.how|) && (s'.inOrder ==> s.inOrder)
    && AllAnswered(p, fields, s.past, s'.past, |s.accepted| - p.wqDepth, s'.inOrder, arrive, w, k)
    && InTurn(p, fields, FlowOf(s), FlowOf(s'), arrive, w, k.bursts, k.how, k.times)
  }

  lemma NothingAccessed<V>(p: Params, fields: seq<Field>, s: Snapshot<V>, w: bool, data: nat -> V, arrive: int)
    ensures Accessed(p, fields, s, s, w, data, arrive, Walk([], [], [], [], arrive))
  {
  }

  lemma AccessOneMore<V>(p: Params, fields: seq<Field>, s: Snapshot<V>, s1: Snapshot<V>, s2: Snapshot<V>, w: bool,
                         data: nat -> V,
                         arrive: int, k: Walk<V>, a: nat, g: Option<V>, how: Answer, d: int)
    requires Accessed(p, fields, s, s1, w, data, arrive, k) &&
             AnsweredOnce(p, fields, s1, s2, w, data(a), arrive, a, how, g, d)
    ensures Accessed(p, fields, s, s2, w, data, arrive, WalkOneMore(k, a, g, how, d))
  {
    hide Walked, Grown, AllAnswered, Answered, InTurn, Once, Entries;
    var slot := |s.accepted| - p.wqDepth;
    EntriesOneMore(k.how, how);
    WalkOn(s.mem, s1.mem, s2.mem, w, data, arrive, k, a, g, how, d);
    GrownOn(s.past, s1.past, s2.past);
    AnswerOneMore(p, fields, s.past, s1.past, s2.past, slot, s1.inOrder, s2.inOrder, arrive, w, k, a, g, how, d);
    OneMoreInTurn(p, fields, FlowOf(s), FlowOf(s1), FlowOf(s2), arrive, w, k, a, g, how, d);
  }

  function WalkOneMore<V>(k: Walk<V>, a: nat, g: Option<V>, how: Answer, d: int): Walk<V> {
    Walk(k.bursts + [a], k.got + [g], k.how + [how], k.times + [d], Max(k.done, d))
  }

  lemma WalkOn<V>(was: map<nat, V>, mem: map<nat, V>, mem': map<nat, V>, w: bool, data: nat -> V, arrive: int,
                  k: Walk<V>, a: nat, g: Option<V>, how: Answer, d: int)
    requires Walked(was, mem, w, data, arrive, k) && arrive <= d
    requires mem' == (if w then mem[a := data(a)] else mem) && (!w ==> g == Lookup(mem, a))
    ensures Walked(was, mem', w, data, arrive, WalkOneMore(k, a, g, how, d))
  {
    OverlayOne(was, k.bursts, a, data);
  }

  /** The writes among the first n answers that entered the queue. */
  function Entries(how: seq<Answer>, n: nat): nat
    requires n <= |how|
  {
    if n == 0 then 0 else Entries(how, n - 1) + (if how[n - 1].Entered? then 1 else 0)
  }

  lemma {:induction false} EntriesPrefix(how: seq<Answer>, h: Answer, n: nat)
    requires n <= |how|
    ensures Entries(how + [h], n) == Entries(how, n)
  {
    if n > 0 { EntriesPrefix(how, h, n - 1); }
  }

  lemma EntriesOneMore(how: seq<Answer>, h: Answer)
    ensures Entries(how + [h], |how + [h]|) == Entries(how, |how|) + (if h.Entered? then 1 else 0)
  {
    EntriesPrefix(how, h, |how|);
  }

  /**
    Burst i of an access is answered when the queue, or its own transfer, says; `slot` is the slot the
    first write to enter would take.
   */
  ghost predicate AnsweredIn<V>(p: Params, fields: seq<Field>, was: Past, now: Past, slot: int, inOrder: bool,
                                arrive: int, w: bool, k: Walk<V>, i: nat)
    requires |k.times| == |k.how| == |k.bursts| && i < |k.bursts|
  {
    Answered(p, fields, was, now, slot + Entries(k.how, i), inOrder, arrive, k.bursts[i], w, k.how[i], k.times[i])
  }

  ghost predicate AllAnswered<V>(p: Params, fields: seq<Field>, was: Past, now: Past, slot: int, inOrder: bool,
                                 arrive: int, w: bool, k: Walk<V>) {
    && |k.times| == |k.how| == |k.bursts|
    && forall i: nat :: i < |k.bursts| ==> AnsweredIn(p, fields, was, now, slot, inOrder, arrive, w, k, i)
  }

  lemma AnswerOneMore<V>(p: Params, fields: seq<Field>, was: Past, now: Past, later: Past, slot: int, inOrder: bool,
                         inOrder': bool,
                         arrive: int, w: bool, k: Walk<V>, a: nat, g: Option<V>, how: Answer, d: int)
    requires AllAnswered(p, fields, was, now, slot, inOrder, arrive, w, k) && Grown(was, now) && Grown(now, later) &&
             (inOrder' ==> inOrder)
    requires Answered(p, fields, now, later, slot + Entries(k.how, |k.how|), inOrder', arrive, a, w, how, d)
    ensures AllAnswered(p, fields, was, later, slot, inOrder', arrive, w, WalkOneMore(k, a, g, how, d))
  {
    LatestAnswer(p, fields, was, now, later, slot, inOrder', arrive, w, k, a, g, how, d);
    hide Answered, Grown, AnsweredIn;
    var k' := WalkOneMore(k, a, g, how, d);
    forall i: nat | i < |k.bursts| ensures AnsweredIn(p, fields, was, later, slot, inOrder', arrive, w, k', i) {
      EarlierAnswer(p, fields, was, now, later, slot, inOrder, inOrder', arrive, w, k, a, g, how, d, i);
    }
  }

  lemma EarlierAnswer<V>(p: Params, fields: seq<Field>, was: Past, now: Past, later: Past, slot: int, inOrder: bool,
                         inOrder': bool,
                         arrive: int, w: bool, k: Walk<V>, a: nat, g: Option<V>, how: Answer, d: int, i: nat)
    requires |k.times| == |k.how| == |k.bursts| && i < |k.bursts|
    requires AnsweredIn(p, fields, was, now, slot, inOrder, arrive, w, k, i) && Grown(now, later) &&
             (inOrder' ==> inOrder)
    ensures AnsweredIn(p, fields, was, later, slot, inOrder', arrive, w, WalkOneMore(k, a, g, how, d), i)
  {
    EntriesPrefix(k.how, how, i);
    GrownSame(was);
    hide Answered, Grown, Entries;
    AnsweredOn(p, fields, was, was, now, later, slot + Entries(k.how, i), inOrder, inOrder', arrive, k.bursts[i], w,
               k.how[i], k.times[i]);
  }

  lemma LatestAnswer<V>(p: Params, fields: seq<Field>, was: Past, now: Past, later: Past, slot: int, inOrder: bool,
                        arrive: int, w: bool, k: Walk<V>, a: nat, g: Option<V>, how: Answer, d: int)
    requires Grown(was, now) && |k.times| == |k.how| == |k.bursts|
    requires Answered(p, fields, now, later, slot + Entries(k.how, |k.how|), inOrder, arrive, a, w, how, d)
    ensures AnsweredIn(p, fields, was, later, slot, inOrder, arrive, w, WalkOneMore(k, a, g, how, d), |k.bursts|)
  {
    EntriesPrefix(k.how, how, |k.how|);
    GrownSame(later);
    hide Answered, Grown, Entries;
    AnsweredOn(p, fields, was, now, later, later, slot + Entries(k.how, |k.how|), inOrder, inOrder, arrive, a, w, how,
               d);
  }

  /** The bursts of an access, one after the other, all arriving at `arrive`. */
  ghost predicate InTurn(p: Params, fields: seq<Field>, f: Flow, f': Flow, arrive: int, w: bool, bursts: seq<nat>,
                         how: seq<Answer>, times: seq<int>)
    decreases |bursts|
  {
    && |times| == |how| == |bursts|
    && if bursts == [] then f' == f
       else
         var n := |bursts| - 1;
         exists m: Flow :: InTurn(p, fields, f, m, arrive, w, bursts[..n], how[..n], times[..n]) &&
                           Once(p, fields, m, f', arrive, bursts[n], w, how[n], times[n])
  }

  lemma OneMoreInTurn<V>(p: Params, fields: seq<Field>, f: Flow, m: Flow, f': Flow, arrive: int, w: bool, k: Walk<V>,
                         a: nat, g: Option<V>, how: Answer, d: int)
    requires InTurn(p, fields, f, m, arrive, w, k.bursts, k.how, k.times)
    requires Once(p, fields, m, f', arrive, a, w, how, d)
    ensures var k' := WalkOneMore(k, a, g, how, d);
            InTurn(p, fields, f, f', arrive, w, k'.bursts, k'.how, k'.times)
  {
    hide Once;
    var n := |k.bursts|;
    assert (k.bursts + [a])[..n] == k.bursts && (k.how + [how])[..n] == k.how && (k.times + [d])[..n] == k.times;
  }

  /** With nothing queued a read is one burst of the DRAM and no more. */
  lemma ReadOfNothingQueued(p: Params, fields: seq<Field>, f: Flow, f': Flow, arrive: int, addr: nat, how: Answer,
                            d: int)
    requires f.wq == [] && Once(p, fields, f, f', arrive, addr, false, how, d)
    ensures f'.wq == [] && Issued(p, fields, f.chan, f.trace, f'.chan, f'.trace, arrive, addr, false, d)
  {
    hide Issued, Goes;
    if p.wqDepth > 0 {
      var m: Flow :| Drains(p, fields, f, m, arrive) && DrainedAs(p, fields, m, f', arrive, addr, how, d);
      var m', n :| DrainedBy(p, fields, f, m', arrive, n) && Stays(p, fields, m', m, arrive);
      EmptyQueueStays(p, fields, f, m', arrive, n);
      NotQueued(addr);
    }
  }

  lemma {:induction false} EmptyQueueStays(p: Params, fields: seq<Field>, f: Flow, f': Flow, t: int, n: nat)
    requires f.wq == [] && DrainedBy(p, fields, f, f', t, n)
    ensures f' == f
    decreases n
  {
    hide Goes;
    if n > 0 {
      var m: Flow :| DrainedBy(p, fields, f, m, t, n - 1) && Goes(p, fields, m, f', t);
      EmptyQueueStays(p, fields, f, m, t, n - 1);
      GoesFirst(p, fields, m, f', t);
    }
  }

  /** Reads that go to the DRAM one after the other, all arriving at `arrive`. */
  ghost predicate ReadInTurn(p: Params, fields: seq<Field>, c0: seq<Channel>, t0: seq<seq<Cmd>>, arrive: int,
                             bursts: seq<nat>, times: seq<int>, c1: seq<Channel>, t1: seq<seq<Cmd>>)
    decreases |bursts|
  {
    && |times| == |bursts|
    && if bursts == [] then c1 == c0 && t1 == t0
       else
         var n := |bursts| - 1;
         exists c, t :: ReadInTurn(p, fields, c0, t0, arrive, bursts[..n], times[..n], c, t) &&
                        Issued(p, fields, c, t, c1, t1, arrive, bursts[n], false, times[n])
  }

  /** With nothing queued, a read access is its bursts of the DRAM and no more. */
  lemma {:induction false} ReadsOfNothingQueued(p: Params, fields: seq<Field>, f: Flow, f': Flow, arrive: int,
                                                bursts: seq<nat>, how: seq<Answer>, times: seq<int>)
    requires f.wq == [] && InTurn(p, fields, f, f', arrive, false, bursts, how, times)
    ensures f'.wq == [] && ReadInTurn(p, fields, f.chan, f.trace, arrive, bursts, times, f'.chan, f'.trace)
    decreases |bursts|
  {
    hide Issued, Once;
    if bursts != [] {
      var n := |bursts| - 1;
      var m: Flow :| InTurn(p, fields, f, m, arrive, false, bursts[..n], how[..n], times[..n]) &&
        Once(p, fields, m, f', arrive, bursts[n], false, how[n], times[n]);
      ReadsOfNothingQueued(p, fields, f, m, arrive, bursts[..n], how[..n], times[..n]);
      ReadOfNothingQueued(p, fields, m, f', arrive, bursts[n], how[n], times[n]);
    }
  }

  class Engine<V(!new)> {
    const p: Params
    const fields: seq<Field>

    var chan: seq<Channel>
    var wq: seq<QueuedWrite>
    var leaving: seq<int>
    var st: Stats

    ghost var trace: seq<seq<Cmd>>
    ghost var hist: History<V>

    ghost function LineOf(ch: nat): Line
      requires ch < |chan| == |trace|
      reads this`chan, this`trace
    {
      Line(chan[ch], trace[ch])
    }

    ghost function Now(): Past
      reads this`trace, this`hist
    {
      Past(trace, hist.sent)
    }

    ghost function Flows(): Flow
      reads this`wq, this`chan, this`trace
    {
      Flow(wq, chan, trace)
    }

    /** The slot the next accepted write takes: that of the write wqDepth before it. */
    ghost function NextSlot(): int
      reads this`hist
    {
      |hist.accepted| - p.wqDepth
    }

    ghost predicate AnsweredNow(was: Past, slot: int, arrive: int, addr: nat, w: bool, how: Answer, d: int)
      reads this`trace, this`hist
    {
      Answered(p, fields, was, Now(), slot, hist.inOrder, arrive, addr, w, how, d)
    }

    ghost function Snap(): Snapshot<V>
      reads this
    {
      Snapshot(hist.mem, Now(), hist.accepted, hist.inOrder, wq, chan)
    }

    ghost predicate Core()
      reads this`chan, this`trace, this`st
    {
      CoreOf(p, fields, chan, trace, st)
    }

    /** When the refresh due next may start: due, bus free, banks past tRAS, recovered, ready, precharged. */
    method StartOfRefresh(c: Channel) returns (start: int)
      ensures start == RefStart(p, c)
    {
      start := Max(c.nextRefresh, c.busFree);
      var anyOpen := false;
      var i := 0;
      while i < |c.banks|
        invariant 0 <= i <= |c.banks|
        invariant start == StartOver(p, c.banks[..i], Max(c.nextRefresh, c.busFree))
        invariant anyOpen == AnyOpen(c.banks[..i])
      {
        assert c.banks[..i + 1][..i] == c.banks[..i];
        AnyOpenStep(c.banks, i);
        var b := c.banks[i];
        if b.openRow >= 0 {
          anyOpen := true;
          start := Max(start, Max(b.act + p.tRAS, b.preOk));
        }
        start := Max(start, b.actOk);
        i := i + 1;
      }
      assert c.banks[..i] == c.banks;
      if anyOpen { start := start + p.tRPab; }
    }

    /** One turn of the refresh loop: the refresh due next and, on a channel left idle, the ones that end before `t`. */
    method RefreshTurn(c: Channel, t: int, ghost tr: seq<Cmd>) returns (c': Channel, n: nat, ghost tr': seq<Cmd>)
      requires Sound(p, Line(c, tr)) && Shaped(p, c)
      requires p.tREFI > 0 && c.nextRefresh <= t
      ensures Sound(p, Line(c', tr')) && Shaped(p, c')
      ensures RefreshAll(p, Line(c', tr'), t) == RefreshAll(p, Line(c, tr), t)
      ensures RefCount(tr') == RefCount(tr) + n
      ensures c.nextRefresh < c'.nextRefresh
    {
      hide Sound, Legal, RefCount, RefreshAll, PreAllOf, Shaped;
      ghost var s := Line(c, tr);
      RefreshSound(p, s);
      OneThenAll(p, s, t);
      var start := StartOfRefresh(c);
      var end := start + p.tRFC;
      c' := c.(banks := CloseAll(c.banks, end), nextRefresh := c.nextRefresh + p.tREFI);
      tr' := RefreshOne(p, s).tr;
      n := 1;

      // After one refresh every bank is closed and idle: skip the refreshes that end before t.
      if c'.nextRefresh + p.tRFC <= t && end <= c'.nextRefresh {
        var skipped := (t - p.tRFC - c'.nextRefresh) / p.tREFI;
        SkipSound(p, s, t, skipped);
        if skipped > 0 {
          tr' := Skip(p, Line(c', tr'), skipped).tr;
          var next := c'.nextRefresh + skipped * p.tREFI;
          c' := c'.(nextRefresh := next, banks := Readied(c'.banks, next - p.tREFI + p.tRFC));
          n := n + skipped;
        }
      }
    }

    /** `refresh`: every refresh due by `t`, on the channel it is handed; `n` of them. */
    method RefreshChannel(c: Channel, t: int, ghost tr: seq<Cmd>) returns (c': Channel, n: nat, ghost tr': seq<Cmd>)
      requires Sound(p, Line(c, tr)) && Shaped(p, c)
      ensures Line(c', tr') == RefreshTo(p, Line(c, tr), t)
      ensures Sound(p, Line(c', tr')) && Shaped(p, c')
      ensures RefCount(tr') == RefCount(tr) + n
    {
      hide Sound, Legal, RefCount, Shaped;
      c', n, tr' := c, 0, tr;
      if p.tREFI <= 0 { return; }
      while c'.nextRefresh <= t
        invariant RefreshAll(p, Line(c', tr'), t) == RefreshAll(p, Line(c, tr), t)
        invariant Sound(p, Line(c', tr')) && Shaped(p, c')
        invariant RefCount(tr') == RefCount(tr) + n
        decreases t - c'.nextRefresh
      {
        var turn;
        c', turn, tr' := RefreshTurn(c', t, tr');
        n := n + turn;
      }
    }

    /** Plans a burst from `t` on; a refresh due before its column command is run first, and the burst planned again. */
    method PlanAround(c: Channel, k: Coord, t: int, w: bool, ghost tr: seq<Cmd>)
      returns (c': Channel, pl: Plan, n: nat, ghost tr': seq<Cmd>)
      requires Sound(p, Line(c, tr)) && Ready(p, c, k) && RefreshFits(p)
      ensures Line(c', tr') == Replan(p, Line(c, tr), k, t, w)
      ensures Sound(p, Line(c', tr')) && Ready(p, c', k) && pl == PlanOf(p, c', k, t, w)
      ensures RefCount(tr') == RefCount(tr) + n
    {
      hide Sound, Legal, RefCount, PlanOf, RefreshTo, RunsIntoRefresh, Settled, Gap;
      c', n, tr' := c, 0, tr;
      pl := PlanOf(p, c', k, t, w);
      while RunsIntoRefresh(p, c', pl)
        invariant Sound(p, Line(c', tr')) && Ready(p, c', k) && pl == PlanOf(p, c', k, t, w)
        invariant Replan(p, Line(c', tr'), k, t, w) == Replan(p, Line(c, tr), k, t, w)
        invariant RefCount(tr') == RefCount(tr) + n
        decreases if Settled(c') then 0 else 1, Max(Gap(p, c', k, t, w) + 1, 0)
      {
        ReplanTurn(p, Line(c', tr'), k, t, w);
        var turn;
        c', turn, tr' := RefreshChannel(c', pl.col, tr');
        n := n + turn;
        pl := PlanOf(p, c', k, t, w);
      }
      ReplanDone(p, Line(c', tr'), k, t, w);
    }

    /** Books a plan on its channel: bank, activate window, bus. */
    method BookChannel(c: Channel, pl: Plan, w: bool) returns (c': Channel)
      requires Shaped(p, c) && InRange(p, pl.k) && pl.bank == BankOf(p, pl.k) < |c.banks|
      ensures c' == CommitOf(p, c, pl, w)
    {
      c' := c;
      var b := c.banks[pl.bank];
      if !pl.kind.Hit? {
        var faw := c.faw[pl.k.ra];
        if |faw| == 4 { faw := faw[1..]; }
        c' := c'.(faw := c.faw[pl.k.ra := faw + [pl.act]], lastAct := pl.act, lastActRank := pl.k.ra,
                  lastActBg := pl.k.bg);
        b := b.(openRow := pl.k.row, act := pl.act);
      }
      b := b.(preOk := Max(b.preOk, if w then pl.end + p.tCK + p.tWR else pl.col + p.tRTP));
      c' := c'.(banks := c.banks[pl.bank := b], busFree := pl.end,
                lastCol := pl.col, lastColRank := pl.k.ra, lastColBg := pl.k.bg, lastWasWrite := w,
                order := Min(pl.firstCmd, pl.col));
      if w { c' := c'.(lastWriteEnd := pl.end); }
    }

    /** `decode`, and what the geometry checks guarantee about the coordinates. */
    method LocateAt(addr: nat) returns (k: Coord)
      requires Core()
      ensures p.BurstBytes() > 0 && k == Locate(p, fields, addr)
      ensures k.ch < |chan| == |trace| && RefreshFits(p)
      ensures Sound(p, LineOf(k.ch)) && Shaped(p, chan[k.ch]) && Ready(p, chan[k.ch], k)
    {
      CoreFacts(p, fields, chan, trace, st);
      LocateInRange(p, fields, addr);
      DivNonNegative(addr, p.BurstBytes());
      k := DecodeLoop(fields, addr / p.BurstBytes());
    }

    /** `burst` on the channel the address decodes to; `n` refreshes went first. */
    method BurstOn(c: Channel, k: Coord, arrive: int, w: bool, ghost tr: seq<Cmd>)
      returns (c': Channel, pl: Plan, n: nat, ghost tr': seq<Cmd>)
      requires Sound(p, Line(c, tr)) && Ready(p, c, k) && RefreshFits(p)
      ensures Line(c', tr') == Burst(p, Line(c, tr), k, arrive, w) && pl == BurstPlan(p, Line(c, tr), k, arrive, w)
      ensures Sound(p, Line(c', tr')) && Shaped(p, c')
      ensures var t0, t1 := TallyOf(tr), TallyOf(tr');
              t1 == Tally(t0.cols + 1, t0.acts + (if pl.kind.Hit? then 0 else 1), t0.refs + n,
                          t0.pres + (if pl.kind.Conflict? then 1 else 0))
    {
      hide Sound, Legal, RefCount, PlanOf, RefreshTo, Replan, CommitOf, CommandsOf, TallyOf, BeforeBurst;
      var t := Max(arrive, c.order);
      BeforeBurstIs(p, Line(c, tr), k, arrive, w);
      var m;
      c', n, tr' := RefreshChannel(c, t, tr);
      c', pl, m, tr' := PlanAround(c', k, t, w, tr');
      n := n + m;
      RefreshedTally(p, Line(c, tr), k, arrive, w);
      CommitSound(p, Line(c', tr'), k, t, w);
      BurstTally(tr', pl, w);
      c' := BookChannel(c', pl, w);
      tr' := tr' + CommandsOf(pl, w);
    }

    /** Runs every refresh due by `t` on channel `ch`. */
    method Refresh(ch: nat, t: int)
      requires Core() && ch < |chan|
      modifies this`chan, this`trace, this`st
      ensures Core() && |chan| == |old(chan)| == |trace|
      ensures LineOf(ch) == RefreshTo(p, old(LineOf(ch)), t)
      ensures forall i: nat :: i < |chan| && i != ch ==> LineOf(i) == old(LineOf(i))
      ensures Requests(st) == Requests(old(st)) && Grown(old(Now()), Now())
    {
      CoreFacts(p, fields, chan, trace, st);
      hide CoreOf, Sound, Legal, Geometry, Shaped, RefreshTo, RefreshFits, RefCount, TallyOf, IsPow2, Grown;
      var c, n;
      ghost var tr;
      c, n, tr := RefreshChannel(chan[ch], t, trace[ch]);
      var st' := st.(refreshes := st.refreshes + n);
      RefreshToTally(p, LineOf(ch), t);
      RefreshAppends(p, LineOf(ch), t);
      GrownAt(Now(), ch, tr);
      CoreUpdate(p, fields, chan, trace, st, ch, Line(c, tr), st');
      chan := chan[ch := c];
      trace := trace[ch := tr];
      st := st';
    }

    /** Plans a burst, lets every refresh it would run into go first, and books it. */
    method IssueBurst(arrive: int, addr: nat, w: bool) returns (end: int)
      requires Core()
      modifies this`chan, this`trace, this`st
      ensures Core() && |chan| == |old(chan)| == |trace|
      ensures Issued(p, fields, old(chan), old(trace), chan, trace, arrive, addr, w, end)
      ensures Requests(st) == Requests(old(st))
    {
      CoreCounts(p, fields, chan, trace, st);
      hide CoreOf, Sound, Legal, Geometry, RefreshFits, RefCount, TallyOf, Locate, IsPow2, Burst, BurstPlan,
           BeforeBurst, Shaped, CountBurst, Issued, BusyFor, Requests, Params.BurstPs, Params.BurstBytes;
      var k := LocateAt(addr);
      var c, pl, n;
      ghost var tr;
      c, pl, n, tr := BurstOn(chan[k.ch], k, arrive, w, trace[k.ch]);
      var st' := CountBurst(p, st, pl, n);
      CountBurstAdds(p, st, pl, n);
      CoreUpdate(p, fields, chan, trace, st, k.ch, Line(c, tr), st');
      IssuedHere(p, fields, chan, trace, arrive, addr, w, k, Line(c, tr), pl);
      chan := chan[k.ch := c];
      trace := trace[k.ch := tr];
      st := st';
      end := pl.end;
    }

    ghost predicate Posted(from: int)
      reads this`wq, this`leaving, this`hist
    {
      PostedOf(p, wq, leaving, hist, from)
    }

    /** The invariant between accesses. */
    ghost predicate Valid()
      reads this
    {
      && Core()
      && Posted(|hist.accepted| - p.wqDepth)
      && |wq| <= Max(p.wqHigh, 0)
    }

    constructor (p: Params, fields: seq<Field>)
      requires Geometry(p, fields)
      ensures this.p == p && this.fields == fields && (Runs(p) ==> Valid())
      ensures wq == [] && st == NO_STATS && hist.mem == map[]
      ensures chan == seq(p.channels, _ => FreshChannel(p)) && trace == seq(p.channels, _ => [])
    {
      this.p, this.fields := p, fields;
      chan := seq(p.channels, _ => FreshChannel(p));
      wq, leaving, st := [], [], NO_STATS;
      trace := seq(p.channels, _ => []);
      hist := History([], [], 0, true, map[], map[], map[]);
      new;
      if Runs(p) { FreshIsCore(p, fields); }
      hide CoreOf, FreshChannel, Geometry, Runs;
    }

    /** Sends the oldest queued write to the DRAM, no earlier than `t`. */
    method IssueOldest(t: int, ghost from: int) returns (end: int)
      requires Core() && Posted(from) && wq != []
      modifies this
      ensures Core() && Posted(from) && |chan| == |old(chan)| == |trace|
      ensures wq == old(wq)[1..] && leaving == old(leaving) + [end]
      ensures hist == Sent(old(hist), old(wq)[0].addr, end)
      ensures Issued(p, fields, old(chan), old(trace), chan, trace, Max(t, old(wq)[0].arrive), old(wq)[0].addr, true,
                     end)
      ensures Grown(old(Now()), Now())
      ensures Seen(hist, st) == Seen(old(hist), old(st))
    {
      hide CoreOf, PostedOf, Issued, Grown;
      var q := wq[0];
      end := IssueBurst(Max(t, q.arrive), q.addr, true);
      IssuedFacts(p, fields, old(chan), old(trace), chan, trace, Max(t, q.arrive), q.addr, true, end);
      SendKeeps(p, wq, leaving, hist, end, from);
      SentUnseen(old(hist), old(st), q.addr, end, st);
      wq := wq[1..];
      leaving := leaving + [end];
      GrownSent(old(Now()), Past(trace, old(hist).sent), end);
      hist := Sent(hist, q.addr, end);
    }

    /** Forgets the writes whose data has left by `t`, the time of the latest arrival. */
    method Retire(t: int, ghost from: int)
      requires Posted(from) && t <= hist.lastArrive
      modifies this`leaving
      ensures Posted(from)
      ensures leaving == [] || leaving[0] > t
      ensures exists n :: 0 <= n <= |old(leaving)| && leaving == old(leaving)[n..] && forall i :: 0 <= i < n ==>
                old(leaving)[i] <= t
    {
      hide PostedOf;
      ghost var n := 0;
      while leaving != [] && leaving[0] <= t
        invariant Posted(from)
        invariant 0 <= n <= |old(leaving)| && leaving == old(leaving)[n..]
        invariant forall i :: 0 <= i < n ==> old(leaving)[i] <= t
        decreases |leaving|
      {
        PopKeeps(p, wq, leaving, hist, from, from);
        leaving := leaving[1..];
        n := n + 1;
      }
    }

    /** One turn of the idle drain: sends the oldest write, unless it could not start or issue before `t`. */
    method DrainOne(t: int, ghost from: int) returns (went: bool)
      requires Core() && Posted(from) && wq != []
      modifies this
      ensures Core() && Posted(from)
      ensures went ==> |leaving| == |old(leaving)| + 1 && Goes(p, fields, old(Flows()), Flows(), t)
      ensures !went ==> leaving == old(leaving) && Stays(p, fields, old(Flows()), Flows(), t)
      ensures Seen(hist, st) == Seen(old(hist), old(st)) && Grown(old(Now()), Now())
    {
      hide CoreOf, PostedOf, Issued, RefreshTo, PlanOf, Geometry, Grown, Goes, Stays, HasOldest, UpToStart, InTime;
      GrownSame(Now());
      ghost var f := Flows();
      var q := wq[0];
      var k := LocateAt(q.addr);
      OldestHere(p, fields, f, st);
      var start := Max(q.arrive, chan[k.ch].order);
      if start >= t { TooLate(p, fields, f, t); return false; }
      Refresh(k.ch, start);
      assert forall i: nat :: i < |chan| && i != k.ch ==> LineOf(i) == Line(f.chan[i], f.trace[i]);
      RefreshedHere(p, fields, f, Flows(), st);
      var k' := LocateAt(q.addr);
      if PlanOf(p, chan[k.ch], k, start, true).col >= t { NotInTime(p, fields, f, Flows(), t); return false; }
      ghost var refreshed, g := Now(), Flows();
      var end := IssueOldest(start, from);
      Went(p, fields, f, g, Flows(), t, end);
      GrownOn(old(Now()), refreshed, Now());
      return true;
    }

    /**
      Sends queued writes while the DRAM would sit idle until `t`: what stays is a write that
      could not start, or would not issue, before then.
     */
    method DrainIdle(t: int, ghost from: int)
      requires Core() && Posted(from)
      modifies this
      ensures Core() && Posted(from) && Drains(p, fields, old(Flows()), Flows(), t)
      ensures |wq| <= |old(wq)| && wq == old(wq)[|old(wq)| - |wq|..]
      ensures |wq| + |leaving| == |old(wq)| + |old(leaving)|
      ensures Seen(hist, st) == Seen(old(hist), old(st)) && Grown(old(Now()), Now())
    {
      hide CoreOf, PostedOf, Seen, Grown, Drains, DrainedBy, Goes, Stays, HasOldest, Max;
      GrownSame(Now());
      NothingDrains(p, fields, Flows(), t);
      ghost var n := 0;
      while wq != []
        invariant Core() && Posted(from) && Grown(old(Now()), Now())
        invariant |wq| <= |old(wq)| && wq == old(wq)[|old(wq)| - |wq|..]
        invariant |wq| + |leaving| == |old(wq)| + |old(leaving)|
        invariant Seen(hist, st) == Seen(old(hist), old(st))
        invariant DrainedBy(p, fields, old(Flows()), Flows(), t, n)
        decreases |wq|
      {
        ghost var before, f := Now(), Flows();
        var went := DrainOne(t, from);
        GrownOn(old(Now()), before, Now());
        if !went {
          StaysKeepsQueue(p, fields, f, Flows(), t);
          DrainEnds(p, fields, old(Flows()), f, Flows(), t, n);
          return;
        }
        GoesFirst(p, fields, f, Flows(), t);
        OneMoreGoes(p, fields, old(Flows()), f, Flows(), t, n);
        n := n + 1;
      }
      NothingDrains(p, fields, Flows(), t);
      EmptyStays(p, fields, Flows(), t);
      DrainEnds(p, fields, old(Flows()), Flows(), Flows(), t, n);
    }

    /**
      Holds an arriving write back until a slot is free: `t` is when it is accepted. The slot it
      takes is that of write number |accepted| - wqDepth, whose data has left by `t`.
     */
    method MakeRoom(arrive: int) returns (t: int)
      requires Core() && Posted(|hist.accepted| - p.wqDepth) && p.wqDepth > 0
      requires arrive <= hist.lastArrive && (hist.inOrder ==> hist.lastArrive == arrive)
      modifies this
      ensures Core() && Posted(|hist.accepted| + 1 - p.wqDepth)
      ensures |wq| + |leaving| < p.wqDepth && arrive <= t && SlotFree(p, hist, t)
      ensures t == arrive || TakesSlot(p, hist, t)
      ensures |old(wq)| < p.wqDepth ==> wq == old(wq)
      ensures |wq| <= |old(wq)| && wq == old(wq)[|old(wq)| - |wq|..]
      ensures Seen(hist, st) == Seen(old(hist), old(st)) && Grown(old(Now()), Now())
    {
      hide CoreOf, PostedOf, Geometry, SlotFree, Grown;
      GrownSame(Now());
      t := arrive;
      ghost var from := |hist.accepted| - p.wqDepth;
      Retire(t, from);
      if |wq| + |leaving| < p.wqDepth { FreeSlot(p, wq, leaving, hist, t); }
      while |wq| + |leaving| >= p.wqDepth
        invariant t == arrive || TakesSlot(p, hist, t)
        invariant |wq| + |leaving| >= p.wqDepth ==> t == arrive
        invariant Core() && arrive <= t && p.wqDepth > 0 && Grown(old(Now()), Now())
        invariant |wq| + |leaving| >= p.wqDepth ==> Posted(from)
        invariant |wq| + |leaving| < p.wqDepth ==> Posted(from + 1) && SlotFree(p, hist, t)
        invariant |wq| <= |old(wq)| && wq == old(wq)[|old(wq)| - |wq|..] && (|old(wq)| < p.wqDepth ==> wq == old(wq))
        invariant Seen(hist, st) == Seen(old(hist), old(st))
        decreases |wq| + |leaving|
      {
        ghost var before := Now();
        t := GiveUpOne(t);
        GrownOn(old(Now()), before, Now());
      }
    }

    /** In a full queue: waits for the oldest write on its way out, sending one if none is. */
    method GiveUpOne(t: int) returns (t': int)
      requires Core() && Posted(|hist.accepted| - p.wqDepth) && |wq| + |leaving| >= p.wqDepth > 0
      modifies this
      ensures Core() && Posted(|hist.accepted| + 1 - p.wqDepth)
      ensures |wq| + |leaving| < p.wqDepth && t <= t' && SlotFree(p, hist, t') && (t' == t || TakesSlot(p, hist, t'))
      ensures |old(wq)| < p.wqDepth ==> wq == old(wq)
      ensures |wq| <= |old(wq)| && wq == old(wq)[|old(wq)| - |wq|..]
      ensures Seen(hist, st) == Seen(old(hist), old(st)) && Grown(old(Now()), Now())
    {
      hide CoreOf, PostedOf, Geometry, Issued, Sent, SlotFree, Grown;
      GrownSame(Now());
      if leaving == [] { var end := IssueOldest(t, |hist.accepted| - p.wqDepth); }
      t' := Max(t, leaving[0]);
      FullQueue(p, wq, leaving, hist, t');
      leaving := leaving[1..];
    }

    /** Is a write to this burst queued? */
    method FindQueued(addr: nat) returns (hit: bool)
      ensures hit <==> IsQueued(wq, addr)
    {
      hit := false;
      var i := 0;
      while i < |wq|
        invariant 0 <= i <= |wq|
        invariant forall j :: 0 <= j < i ==> wq[j].addr != addr
      {
        if wq[i].addr == addr { return true; }
        i := i + 1;
      }
    }

    /** Sends queued writes until fewer than `wqLow` are left. */
    method BatchDrain(t: int, ghost from: int)
      requires Core() && Posted(from) && 0 < p.wqLow <= |wq|
      modifies this
      ensures Core() && Posted(from) && wq == old(wq)[|old(wq)| - (p.wqLow - 1)..]
      ensures Seen(hist, st) == Seen(old(hist), old(st)) && Grown(old(Now()), Now())
    {
      hide CoreOf, PostedOf, Seen, Issued, Sent, Grown;
      GrownSame(Now());
      while |wq| >= p.wqLow
        invariant Core() && Posted(from) && Grown(old(Now()), Now())
        invariant p.wqLow - 1 <= |wq| <= |old(wq)| && wq == old(wq)[|old(wq)| - |wq|..]
        invariant Seen(hist, st) == Seen(old(hist), old(st))
        decreases |wq|
      {
        ghost var before := Now();
        var end := IssueOldest(t, from);
        GrownOn(old(Now()), before, Now());
      }
    }

    /**
      One burst through the write queue, arriving at `arrive`. `v` is the content a write carries.
      The read sees what a flat memory would give it, the memory afterwards is a flat memory's.
     */
    method Queued(arrive: int, addr: nat, w: bool, ghost v: V) returns (done: int, how: Answer, ghost got: Option<V>)
      requires Valid() && p.wqDepth > 0
      modifies this
      ensures Valid() && arrive <= done
      ensures Seen(hist, st) == AnswerView(how, ArriveView(Seen(old(hist), old(st)), arrive), addr, v, done)
      ensures w == (how.Absorbed? || how.Entered?)
      ensures !w ==> got == Lookup(old(hist).mem, addr)
      ensures Grown(old(Now()), Now()) && AnsweredNow(old(Now()), old(NextSlot()), arrive, addr, w, how, done)
      ensures QueuedAs(p, fields, old(Flows()), Flows(), arrive, addr, how, done)
    {
      hide CoreOf, PostedOf, Issued, Drains, Seen, AnswerView, ArriveView, Arrived, Lookup, Grown, Answered, IsQueued;
      ghost var from := |hist.accepted| - p.wqDepth;
      ArriveKeeps(p, wq, leaving, hist, arrive, from);
      ViewLemmas(hist, st, arrive, addr, v);
      ArrivedFacts(hist, arrive);
      hist := Arrived(hist, arrive);
      ghost var h1 := hist;
      DrainIdle(arrive, from);
      SeenFacts(hist, st, h1, old(st));
      ghost var drained := Now();
      ghost var f := Flows();
      done, how, got := AnswerDrained(arrive, addr, w, v);
      AnsweredAs(p, fields, old(Flows()), f, Flows(), arrive, addr, how, done);
      GrownOn(old(Now()), drained, Now());
      GrownSame(Now());
      AnsweredOn(p, fields, old(Now()), drained, Now(), Now(), |old(hist).accepted| - p.wqDepth, hist.inOrder,
                 hist.inOrder, arrive, addr, w, how, done);
    }

    /** The same once the idle drain is over. */
    method AnswerDrained(arrive: int, addr: nat, w: bool, ghost v: V)
      returns (done: int, how: Answer, ghost got: Option<V>)
      requires Valid() && p.wqDepth > 0
      requires arrive <= hist.lastArrive && (hist.inOrder ==> hist.lastArrive == arrive)
      modifies this
      ensures Valid() && arrive <= done
      ensures Seen(hist, st) == AnswerView(how, Seen(old(hist), old(st)), addr, v, done)
      ensures w == (how.Absorbed? || how.Entered?)
      ensures !w ==> got == Lookup(old(hist).mem, addr)
      ensures Grown(old(Now()), Now()) && AnsweredNow(old(Now()), old(NextSlot()), arrive, addr, w, how, done)
      ensures DrainedAs(p, fields, old(Flows()), Flows(), arrive, addr, how, done)
    {
      CoreClock(p, fields, chan, trace, st);
      hide CoreOf, PostedOf, Issued, IsQueued, Seen, AnswerView, Lookup, Grown, Answered;
      var hit := FindQueued(addr);
      if hit {
        done, got := AnswerQueued(arrive, addr, w, v);
        how := if w then Absorbed else Forwarded;
      } else if w {
        done := Accept(arrive, addr, v);
        how, got := Entered, None;
      } else {
        done, got := ReadDram(arrive, addr, v);
        how := Delivered;
      }
    }

    /** A read of a burst that is not queued. */
    method ReadDram(arrive: int, addr: nat, ghost v: V) returns (done: int, ghost got: Option<V>)
      requires Valid() && !IsQueued(wq, addr)
      modifies this
      ensures Valid() && arrive <= done && wq == old(wq) &&
              Issued(p, fields, old(chan), old(trace), chan, trace, arrive, addr, false, done)
      ensures Grown(old(Now()), Now())
      ensures AnsweredNow(old(Now()), old(NextSlot()), arrive, addr, false, Delivered, done)
      ensures Seen(hist, st) == AnswerView(Delivered, Seen(old(hist), old(st)), addr, v, done)
      ensures got == Lookup(old(hist).mem, addr)
    {
      hide CoreOf, PostedOf, Issued, IsQueued, Lookup, Grown, Transferred;
      PostedBounds(p, wq, leaving, hist, |hist.accepted| - p.wqDepth);
      got := Lookup(hist.dram, addr);
      done := IssueBurst(arrive, addr, false);
      IssuedFacts(p, fields, old(chan), old(trace), chan, trace, arrive, addr, false, done);
    }

    /** A queued write answers: a read gets its content, a write changes it. */
    method AnswerQueued(arrive: int, addr: nat, w: bool, ghost v: V) returns (done: int, ghost got: Option<V>)
      requires Valid() && IsQueued(wq, addr)
      modifies this`st, this`hist
      ensures Valid() && (0 <= p.tCK ==> arrive <= done)
      ensures Seen(hist, st) == AnswerView(if w then Absorbed else Forwarded, Seen(old(hist), old(st)), addr, v, done)
      ensures !w ==> got == Lookup(old(hist).mem, addr)
      ensures Grown(old(Now()), Now())
      ensures AnsweredNow(old(Now()), old(NextSlot()), arrive, addr, w, if w then Absorbed else Forwarded, done)
    {
      hide CoreOf, PostedOf;
      ghost var from := |hist.accepted| - p.wqDepth;
      PostedBounds(p, wq, leaving, hist, from);
      if w {
        MergeKeeps(p, wq, leaving, hist, addr, v, from);
        CoreRequests(p, fields, chan, trace, st, st.(merged := st.merged + 1));
        hist := Merged(hist, addr, v);
        st := st.(merged := st.merged + 1);
        done, got := arrive, None;
      } else {
        CoreRequests(p, fields, chan, trace, st, st.(forwarded := st.forwarded + 1));
        st := st.(forwarded := st.forwarded + 1);
        done, got := arrive + p.tCK, Some(hist.pending[addr]);
      }
    }

    /** A write to a burst that is not queued: waits for a slot, enters, and may set off a batch drain. */
    method Accept(arrive: int, addr: nat, ghost v: V) returns (t: int)
      requires Valid() && p.wqDepth > 0 && !IsQueued(wq, addr)
      requires arrive <= hist.lastArrive && (hist.inOrder ==> hist.lastArrive == arrive)
      modifies this
      ensures Valid() && arrive <= t && Grown(old(Now()), Now())
      ensures AnsweredNow(old(Now()), old(NextSlot()), arrive, addr, true, Entered, t)
      ensures Seen(hist, st) == AnswerView(Entered, Seen(old(hist), old(st)), addr, v, t)
      ensures wq == Batched(p, old(wq) + [QueuedWrite(t, addr)])
    {
      WaterMarks(p, fields, chan, trace, st);
      hide CoreOf, PostedOf, IsQueued, Seen, AnswerView, Grown, EntersAt;
      t := TakeSlot(arrive, addr, v);
      ghost var entered := Now();
      AfterEntry(t);
      GrownOn(old(Now()), entered, Now());
      GrownIs(entered, Now());
      EntersLater(entered.sent, hist.sent, old(NextSlot()), hist.inOrder, arrive, t);
    }

    /** Waits for a slot and enters. */
    method TakeSlot(arrive: int, addr: nat, ghost v: V) returns (t: int)
      requires Valid() && |wq| < p.wqDepth && !IsQueued(wq, addr)
      requires arrive <= hist.lastArrive && (hist.inOrder ==> hist.lastArrive == arrive)
      modifies this
      ensures Core() && Posted(NextSlot()) && arrive <= t && Grown(old(Now()), Now())
      ensures EntersAt(hist.sent, old(NextSlot()), hist.inOrder, arrive, t)
      ensures Seen(hist, st) == AnswerView(Entered, Seen(old(hist), old(st)), addr, v, t)
      ensures wq == old(wq) + [QueuedWrite(t, addr)]
    {
      hide CoreOf, PostedOf, Geometry, SlotFree, TakesSlot, IsQueued, Seen, AnswerView, Grown, EntersAt;
      t := MakeRoom(arrive);
      assert wq == old(wq);
      EntersThen(p, hist, arrive, t);
      SeenFacts(hist, st, old(hist), old(st));
      Enter(t, addr, v);
    }

    /** Above the high mark, a batch of writes is sent. */
    method AfterEntry(t: int)
      requires Core() && Posted(|hist.accepted| - p.wqDepth) && 0 < p.wqLow <= p.wqHigh
      modifies this
      ensures Valid() && Grown(old(Now()), Now())
      ensures Seen(hist, st) == Seen(old(hist), old(st)) && hist.inOrder == old(hist).inOrder &&
              hist.accepted == old(hist).accepted
      ensures wq == Batched(p, old(wq))
    {
      hide CoreOf, PostedOf, Grown;
      GrownSame(Now());
      if |wq| > p.wqHigh { BatchDrain(t, |hist.accepted| - p.wqDepth); }
    }

    /** Puts an accepted write at the end of the queue. */
    method Enter(t: int, addr: nat, ghost v: V)
      requires Posted(|hist.accepted| + 1 - p.wqDepth) && p.wqDepth > 0
      requires |wq| + |leaving| < p.wqDepth && SlotFree(p, hist, t) && !IsQueued(wq, addr)
      modifies this`wq, this`hist
      ensures wq == old(wq) + [QueuedWrite(t, addr)]
      ensures Posted(|hist.accepted| - p.wqDepth) && hist.sent == old(hist).sent && hist.inOrder == old(hist).inOrder
      ensures Seen(hist, st) == AnswerView(Entered, Seen(old(hist), st), addr, v, t)
    {
      hide PostedOf, SlotFree, IsQueued, Seen, AnswerView;
      AcceptKeeps(p, wq, leaving, hist, t, addr, v);
      ViewLemmas(hist, st, t, addr, v);
      wq := wq + [QueuedWrite(t, addr)];
      hist := Accepted(hist, t, addr, v);
    }

    /** Without a queue a write goes to the DRAM in its turn; it is answered when its data has been written. */
    method Direct(arrive: int, addr: nat, w: bool, ghost v: V) returns (done: int, ghost got: Option<V>)
      requires Valid() && p.wqDepth <= 0
      modifies this
      ensures Valid() && arrive <= done
      ensures hist.mem == (if w then old(hist).mem[addr := v] else old(hist).mem) && wq == old(wq)
      ensures hist.accepted == old(hist).accepted && hist.inOrder == old(hist).inOrder
      ensures !w ==> got == Lookup(old(hist).mem, addr)
      ensures st.nbReads == old(st).nbReads && st.nbWrites == old(st).nbWrites
      ensures Issued(p, fields, old(chan), old(trace), chan, trace, arrive, addr, w, done)
      ensures Grown(old(Now()), Now()) && Transferred(p, fields, old(trace), trace, addr, w, done)
    {
      hide CoreOf, PostedOf, Issued, Lookup, Grown, Transferred;
      got := Lookup(hist.mem, addr);
      done := IssueBurst(arrive, addr, w);
      IssuedFacts(p, fields, old(chan), old(trace), chan, trace, arrive, addr, w, done);
      if w {
        WrittenKeeps(p, wq, leaving, hist, addr, v, |hist.accepted| - p.wqDepth);
        hist := Written(hist, addr, v);
      }
    }

    /** One burst of an access. With nothing queued a read is one burst of the DRAM, no more. */
    method OneBurst(arrive: int, addr: nat, w: bool, ghost v: V) returns (done: int, how: Answer, ghost got: Option<V>)
      requires Valid()
      modifies this
      ensures Valid()
      ensures st.nbReads == old(st).nbReads && st.nbWrites == old(st).nbWrites
      ensures AnsweredOnce(p, fields, old(Snap()), Snap(), w, v, arrive, addr, how, got, done)
    {
      hide CoreOf, PostedOf, Issued, Grown, Transferred, Seen, AnswerView, ArriveView;
      if p.wqDepth > 0 {
        done, how, got := Queued(arrive, addr, w, v);
        ViewFacts(hist, st, old(hist), old(st), how, arrive, addr, v, done);
      } else {
        done, got := Direct(arrive, addr, w, v);
        how := Delivered;
      }
    }

    /**
      An access arriving at `now`: the time it is answered, controller latency included. The answer
      comes when the slowest of its bursts is answered, never before the controller could pass it on
      and back. A read gives, burst by burst, what a flat memory holds; a write leaves what a flat
      memory would hold.
     */
    method Access(now: int, addr: nat, size: nat, w: bool, ghost data: nat -> V) returns (end: int, ghost walk: Walk<V>)
      requires Valid()
      modifies this
      ensures Valid()
      ensures st.nbReads == old(st).nbReads + (if w then 0 else 1) &&
              st.nbWrites == old(st).nbWrites + (if w then 1 else 0)
      ensures p.BurstBytes() > 0 && AlignOf(p) > 0
      ensures walk.bursts == BurstsFrom(SpanFirst(addr, AlignOf(p)), SpanLast(addr, Max(size, 1), AlignOf(p)),
                                        p.BurstBytes())
      ensures Accessed(p, fields, old(Snap()), Snap(), w, data, now + p.ctrlPs / 2, walk)
      ensures end == walk.done + (p.ctrlPs - p.ctrlPs / 2)
    {
      hide CoreOf, PostedOf, SpanFirst, SpanLast, AlignOf, BurstsFrom, Params.BurstBytes, Accessed, Params.NumBanks;
      AlignPositive(p, fields, chan, trace, st);
      var sz := Max(size, 1);
      CountRequest(w);
      var done;
      done, walk := Bursts(now + p.ctrlPs / 2, SpanFirst(addr, AlignOf(p)), SpanLast(addr, sz, AlignOf(p)), w, data);
      end := done + (p.ctrlPs - p.ctrlPs / 2);
    }

    /** The loop of `access`: burst after burst from `first` while below `last`. */
    method Bursts(arrive: int, first: nat, last: int, w: bool, ghost data: nat -> V)
      returns (done: int, ghost walk: Walk<V>)
      requires Valid() && p.BurstBytes() > 0
      modifies this
      ensures Valid()
      ensures st.nbReads == old(st).nbReads && st.nbWrites == old(st).nbWrites
      ensures walk.bursts == BurstsFrom(first, last, p.BurstBytes()) && walk.done == done
      ensures Accessed(p, fields, old(Snap()), Snap(), w, data, arrive, walk)
    {
      hide CoreOf, PostedOf, Params.BurstBytes, Accessed, AnsweredOnce, BurstsFrom;
      done, walk := arrive, Walk([], [], [], [], arrive);
      NothingAccessed(p, fields, Snap(), w, data, arrive);
      var a := first;
      while a < last
        invariant Valid() && walk.done == done
        invariant walk.bursts + BurstsFrom(a, last, p.BurstBytes()) == BurstsFrom(first, last, p.BurstBytes())
        invariant Accessed(p, fields, old(Snap()), Snap(), w, data, arrive, walk)
        invariant st.nbReads == old(st).nbReads && st.nbWrites == old(st).nbWrites
        decreases last - a
      {
        ghost var before := Snap();
        var d, how;
        ghost var g;
        d, how, g := OneBurst(arrive, a, w, data(a));
        NextBurstFrom(walk.bursts, a, last, p.BurstBytes());
        AccessOneMore(p, fields, old(Snap()), before, Snap(), w, data, arrive, walk, a, g, how, d);
        walk := WalkOneMore(walk, a, g, how, d);
        done := Max(done, d);
        a := a + p.BurstBytes();
      }
      NoBurstFrom(walk.bursts, a, last, p.BurstBytes());
    }

    method CountRequest(w: bool)
      requires Valid()
      modifies this`st
      ensures Valid()
      ensures st.nbReads == old(st).nbReads + (if w then 0 else 1) &&
              st.nbWrites == old(st).nbWrites + (if w then 1 else 0)
    {
      hide CoreOf, PostedOf;
      var st' := if w then st.(nbWrites := st.nbWrites + 1) else st.(nbReads := st.nbReads + 1);
      CoreRequests(p, fields, chan, trace, st, st');
      st := st';
    }
  }

  /* ---- What any engine shows after any run: the invariant holds of a new one and after every access ---- */

  /** Every channel's commands keep every spacing, whoever issued them and however far apart they are. */
  lemma RunsAreSafe<V(!new)>(e: Engine<V>, ch: nat)
    requires e.Valid() && ch < |e.trace|
    ensures e.p.TimingsOk() && Legal(e.p, e.trace[ch])
    ensures forall i, j :: 0 <= i < j < |e.trace[ch]| ==> Spaced(e.p, e.trace[ch][i], e.trace[ch][j])
    ensures forall i, j :: 0 <= i < j < |e.trace[ch]| && e.trace[ch][i].Col? && e.trace[ch][j].Col? ==>
              e.trace[ch][i].end <= e.trace[ch][j].end - e.p.BurstPs()
    ensures forall r, x :: 0 <= r < |e.trace[ch]| && 0 <= x < |e.trace[ch]| && e.trace[ch][r].Ref? ==>
              KeepsOut(e.trace[ch][r], e.trace[ch][x])
  {
    var p, tr := e.p, e.trace[ch];
    CoreFacts(p, e.fields, e.chan, e.trace, e.st);
    SoundIsLegal(p, LineAt(e, ch));
    hide Legal, Spaced, CoreOf, PostedOf, Sound;
    forall i, j | 0 <= i < j < |tr| ensures Spaced(p, tr[i], tr[j]) {
      EveryPairSpaced(p, tr, i, j);
    }
    forall i, j | 0 <= i < j < |tr| && tr[i].Col? && tr[j].Col? ensures tr[i].end <= tr[j].end - p.BurstPs() {
      BusSlotsDisjoint(p, tr, i, j);
    }
    forall r, x | 0 <= r < |tr| && 0 <= x < |tr| && tr[r].Ref? ensures KeepsOut(tr[r], tr[x]) {
      NothingInsideRefresh(p, tr, r, x);
    }
  }

  /** No row is opened and no data moves while the refresh `r` lasts. */
  ghost predicate KeepsOut(r: Cmd, c: Cmd)
    requires r.Ref?
  {
    && (c.Act? ==> c.at <= r.at || r.end <= c.at)
    && (c.Col? ==> c.end <= r.at || r.end <= c.at)
  }

  ghost function LineAt<V(!new)>(e: Engine<V>, ch: nat): Line
    requires ch < |e.chan| == |e.trace|
    reads e
  {
    Line(e.chan[ch], e.trace[ch])
  }

  lemma SoundIsLegal(p: Params, s: Line)
    requires Sound(p, s)
    ensures p.TimingsOk() && Legal(p, s.tr)
  {
  }

  /** The refreshes of a channel are due one after another at every tREFI: none lost, none doubled, none early. */
  lemma RefreshesInTurn<V(!new)>(e: Engine<V>, ch: nat, r: nat)
    requires e.Valid() && ch < |e.trace| && r < |e.trace[ch]| && e.trace[ch][r].Ref?
    ensures e.trace[ch][r].due == (RefCount(e.trace[ch][..r]) + 1) * e.p.tREFI <= e.trace[ch][r].at
    ensures e.trace[ch][r].end == e.trace[ch][r].at + e.p.tRFC
  {
    CoreFacts(e.p, e.fields, e.chan, e.trace, e.st);
    SoundIsLegal(e.p, LineAt(e, ch));
    LegalAt(e.p, e.trace[ch], r);
    hide Legal, CoreOf, PostedOf, Sound, Spaced, RowRule, NeighbourRule;
  }

  /**
    The queue and the slots: never more writes waiting or leaving than slots, none waiting twice,
    memory is the DRAM with the waiting writes over it, and with arrivals in order a slot is taken
    again only once its data is out.
   */
  lemma QueueKeeps<V(!new)>(e: Engine<V>)
    requires e.Valid()
    ensures |e.wq| + |e.leaving| <= Max(e.p.wqDepth, 0) && |e.wq| <= Max(e.p.wqHigh, 0)
    ensures forall i, j :: 0 <= i < j < |e.wq| ==> e.wq[i].addr != e.wq[j].addr
    ensures e.hist.mem == e.hist.dram + e.hist.pending
    ensures forall a :: a in e.hist.pending <==> exists i :: 0 <= i < |e.wq| && e.wq[i].addr == a
    ensures |e.hist.accepted| == |e.hist.sent| + |e.wq|
    ensures e.hist.inOrder ==> forall j :: 0 <= j < |e.hist.accepted| && e.p.wqDepth <= j ==>
              j - e.p.wqDepth < |e.hist.sent| && e.hist.sent[j - e.p.wqDepth] <= e.hist.accepted[j]
  {
    hide CoreOf;
  }

  /** Refreshing adds refreshes to the tally and nothing else. */
  lemma RefreshToTally(p: Params, s: Line, t: int)
    ensures var t0, t1 := TallyOf(s.tr), TallyOf(RefreshTo(p, s, t).tr);
            && t1.cols == t0.cols && t1.acts == t0.acts && t1.pres == t0.pres
            && t1.refs - t0.refs == RefCount(RefreshTo(p, s, t).tr) - RefCount(s.tr)
  {
    TallyRefs(s.tr);
    TallyRefs(RefreshTo(p, s, t).tr);
    if p.tREFI > 0 { RefreshTally(p, s, t); }
  }

  lemma {:induction false} ReplanTally(p: Params, s: Line, k: Coord, t: int, w: bool)
    requires Ready(p, s.c, k) && RefreshFits(p)
    ensures var t0, t1 := TallyOf(s.tr), TallyOf(Replan(p, s, k, t, w).tr);
            && t1.cols == t0.cols && t1.acts == t0.acts && t1.pres == t0.pres
            && t1.refs - t0.refs == RefCount(Replan(p, s, k, t, w).tr) - RefCount(s.tr)
    decreases if Settled(s.c) then 0 else 1, Max(Gap(p, s.c, k, t, w) + 1, 0)
  {
    hide TallyOf, RefCount, RefreshTo, Settled, Gap, PlanOf;
    var pl := PlanOf(p, s.c, k, t, w);
    if RunsIntoRefresh(p, s.c, pl) {
      ReplanTurn(p, s, k, t, w);
      RefreshToTally(p, s, pl.col);
      ReplanTally(p, RefreshTo(p, s, pl.col), k, t, w);
    } else {
      ReplanDone(p, s, k, t, w);
    }
  }

  lemma RefreshedTally(p: Params, s: Line, k: Coord, arrive: int, w: bool)
    requires Ready(p, s.c, k) && RefreshFits(p)
    ensures var t0, t1 := TallyOf(s.tr), TallyOf(BeforeBurst(p, s, k, arrive, w).tr);
            && t1.cols == t0.cols && t1.acts == t0.acts && t1.pres == t0.pres
            && t1.refs - t0.refs == RefCount(BeforeBurst(p, s, k, arrive, w).tr) - RefCount(s.tr)
  {
    var t := Max(arrive, s.c.order);
    BeforeBurstIs(p, s, k, arrive, w);
    RefreshToTally(p, s, t);
    ReplanTally(p, RefreshTo(p, s, t), k, t, w);
  }

  lemma AnyOpenStep(banks: seq<Bank>, i: nat)
    requires i < |banks|
    ensures AnyOpen(banks[..i + 1]) == (AnyOpen(banks[..i]) || banks[i].openRow >= 0)
  {
    if AnyOpen(banks[..i]) {
      var j :| 0 <= j < i && banks[..i][j].openRow >= 0;
      assert banks[..i + 1][j].openRow >= 0;
    }
    if banks[i].openRow >= 0 {
      assert banks[..i + 1][i].openRow >= 0;
    }
    if AnyOpen(banks[..i + 1]) {
      var j :| 0 <= j < i + 1 && banks[..i + 1][j].openRow >= 0;
      assert j < i ==> banks[..i][j].openRow >= 0;
    }
  }
}
