/**
  The LPDDR device as the timing engine sees it: the commands a channel can receive,
  the row each bank holds open after a command history, and the rule that says which
  command may legally come next. Nothing here knows how the engine schedules: `Legal`
  is the independent reference the engine's command traces are proved against.

  All times are integers, in picoseconds.
 */
module DramDevice {
  import opened Arith

  /** Geometry and timings of one memory, under the names the engine uses. */
  datatype Params = Params(
    ctrlPs: nat, granule: nat,
    channels: nat, ranks: nat, bankgroups: nat, banks: nat, rows: nat,
    pageBytes: nat, widthBits: nat, burstLength: nat, mtps: nat, mapping: string,
    tCK: int, tRCD: int, tRP: int, tRPab: int, tRAS: int, tRC: int,
    tRL: int, tWL: int, tRRD_S: int, tRRD_L: int, tFAW: int,
    tCCD_S: int, tCCD_L: int, tWTR_S: int, tWTR_L: int, tRTW: int, tRTW_L: int,
    tWR: int, tRTP: int, tREFI: int, tRFC: int,
    wqDepth: int, wqHigh: int, wqLow: int)
  {
    /** Banks of one channel; `bank` below is an index into them. */
    function NumBanks(): nat { ranks * bankgroups * banks }

    function BurstBytes(): nat { widthBits / 8 * burstLength }

    /** Time one burst occupies the data bus. */
    function BurstPs(): nat
      requires mtps > 0
    {
      burstLength * 1000000 / mtps
    }

    /** Data sheets give durations; the engine never checks that they are not negative. */
    ghost predicate TimingsOk() {
      && 0 <= tCK && 0 <= tRCD && 0 <= tRP && 0 <= tRPab && 0 <= tRAS && 0 <= tRC
      && 0 <= tRL && 0 <= tWL && 0 <= tRRD_S && 0 <= tRRD_L && 0 <= tFAW
      && 0 <= tCCD_S && 0 <= tCCD_L && 0 <= tWTR_S && 0 <= tWTR_L && 0 <= tRTW && 0 <= tRTW_L
      && 0 <= tWR && 0 <= tRTP && 0 <= tRFC
      && mtps > 0
    }
  }

  /** One command on a channel. A column command carries the end of its data. */
  datatype Cmd =
    | Pre(at: int, bank: nat)
    | Act(at: int, bg: nat, bank: nat, row: nat)
    | Col(at: int, bg: nat, bank: nat, row: nat, write: bool, end: int)
    | PreAll(at: int)
    | Ref(at: int, end: int, due: int)

  datatype RowState = Closed | Open(row: nat, since: int)

  function Latency(p: Params, write: bool): int { if write then p.tWL else p.tRL }

  /** Earliest precharge a column command leaves behind: tRTP, or write recovery. */
  function Recovery(p: Params, c: Cmd): int
    requires c.Col?
  {
    if c.write then c.end + p.tCK + p.tWR else c.at + p.tRTP
  }

  /** What a bank holds after the history `h`: replayed command by command. */
  ghost function RowOf(h: seq<Cmd>, bank: nat): RowState {
    if h == [] then Closed
    else
      var c, rest := h[|h| - 1], h[..|h| - 1];
      match c
      case Act(at, _, b, row) => if b == bank then Open(row, at) else RowOf(rest, bank)
      case Pre(_, b) => if b == bank then Closed else RowOf(rest, bank)
      case PreAll(_) => Closed
      case Col(_, _, _, _, _, _) => RowOf(rest, bank)
      case Ref(_, _, _) => RowOf(rest, bank)
  }

  /** The most recent ACT (`wantAct`) or column command of a history, if any: as a sequence of at most one. */
  ghost function LastOf(h: seq<Cmd>, wantAct: bool): (r: seq<Cmd>)
    ensures |r| <= 1
    ensures |r| == 1 ==> r[0] in h && (if wantAct then r[0].Act? else r[0].Col?)
  {
    if h == [] then []
    else if (if wantAct then h[|h| - 1].Act? else h[|h| - 1].Col?) then [h[|h| - 1]]
    else LastOf(h[..|h| - 1], wantAct)
  }

  /** The ACT times of a history, in order. */
  ghost function ActTimes(h: seq<Cmd>): seq<int> {
    if h == [] then []
    else if h[|h| - 1].Act? then ActTimes(h[..|h| - 1]) + [h[|h| - 1].at]
    else ActTimes(h[..|h| - 1])
  }

  ghost function RefCount(h: seq<Cmd>): nat {
    if h == [] then 0 else RefCount(h[..|h| - 1]) + (if h[|h| - 1].Ref? then 1 else 0)
  }

  /**
    The timing table: how far command `c` stays behind any earlier command `e` of its channel.
    A refresh and a precharge-all concern every bank; the other rows only the bank they name,
    except that transfers share the data bus.
   */
  predicate Spaced(p: Params, e: Cmd, c: Cmd)
    requires p.mtps > 0
  {
    match c
    case Act(at, _, bank, _) =>
      (match e
       case Pre(t, b) => b == bank ==> t + p.tRP <= at
       case Act(t, _, b, _) => b == bank ==> t + p.tRC <= at
       case Ref(_, end, _) => end <= at
       case PreAll(_) => true
       case Col(_, _, _, _, _, _) => true)
    case Pre(at, bank) =>
      e.Col? && e.bank == bank ==> Recovery(p, e) <= at
    case Col(at, _, _, _, w, _) =>
      && (e.Col? ==> e.end <= at + Latency(p, w))
      && (e.Ref? ==> e.end <= at)
    case PreAll(at) =>
      e.Col? ==> Recovery(p, e) <= at && e.end <= at
    case Ref(at, _, _) =>
      (match e
       case PreAll(t) => t + p.tRPab <= at
       case Col(_, _, _, _, _, end) => end <= at
       case Act(t, _, _, _) => t <= at
       case Pre(_, _) => true
       case Ref(_, end, _) => end <= at)
  }

  /**
    What the rows held open demand: tRAS before a precharge, tRCD before a column, closed banks for ACT
    and refresh.
   */
  ghost predicate RowRule(p: Params, h: seq<Cmd>, c: Cmd) {
    match c
    case Act(_, _, bank, _) => RowOf(h, bank).Closed?
    case Pre(at, bank) => RowOf(h, bank).Open? && RowOf(h, bank).since + p.tRAS <= at
    case Col(at, _, bank, row, _, _) =>
      RowOf(h, bank).Open? && RowOf(h, bank).row == row && RowOf(h, bank).since + p.tRCD <= at
    case PreAll(at) => forall b: nat :: RowOf(h, b).Open? ==> RowOf(h, b).since + p.tRAS <= at
    case Ref(_, _, _) => forall b: nat :: RowOf(h, b).Closed?
  }

  /** What depends on the last command of a kind: tRRD and the four-activate window, tCCD and the bus turnarounds. */
  ghost predicate NeighbourRule(p: Params, h: seq<Cmd>, c: Cmd) {
    match c
    case Act(at, bg, _, _) =>
      && (var last := LastOf(h, true);
          last != [] ==> last[0].at + (if last[0].bg == bg then p.tRRD_L else p.tRRD_S) <= at)
      && (var acts := ActTimes(h); |acts| >= 4 ==> acts[|acts| - 4] + p.tFAW <= at)
    case Col(at, bg, _, _, w, _) =>
      var last := LastOf(h, false);
      last != [] ==>
        var sameBg := last[0].bg == bg;
        && last[0].at + (if sameBg then p.tCCD_L else p.tCCD_S) <= at
        && (!w && last[0].write ==> last[0].end + (if sameBg then p.tWTR_L else p.tWTR_S) <= at)
        && (w && !last[0].write ==>
              last[0].at + (if sameBg && p.tRTW_L != 0 then p.tRTW_L else p.tRTW) <= at)
    case _ => true
  }

  /**
    How long a command takes, and when a refresh may come: the k-th refresh is the one due at
    k tREFI and never starts before that. None is lost and none is repeated.
   */
  ghost predicate Shape(p: Params, h: seq<Cmd>, c: Cmd)
    requires p.mtps > 0
  {
    match c
    case Col(at, _, _, _, w, end) => end == at + Latency(p, w) + p.BurstPs()
    case Ref(at, end, due) => due == (RefCount(h) + 1) * p.tREFI && due <= at && end == at + p.tRFC
    case _ => true
  }

  /** May command `c` follow the history `h`? */
  ghost predicate Allowed(p: Params, h: seq<Cmd>, c: Cmd)
    requires p.mtps > 0
  {
    && (forall e :: e in h ==> Spaced(p, e, c))
    && RowRule(p, h, c)
    && NeighbourRule(p, h, c)
    && Shape(p, h, c)
  }

  /** Every command of the trace is allowed after the ones before it. */
  ghost predicate Legal(p: Params, tr: seq<Cmd>)
    requires p.mtps > 0
  {
    tr == [] || (Legal(p, tr[..|tr| - 1]) && Allowed(p, tr[..|tr| - 1], tr[|tr| - 1]))
  }

  lemma LegalSnoc(p: Params, h: seq<Cmd>, c: Cmd)
    requires p.mtps > 0 && Legal(p, h) && Allowed(p, h, c)
    ensures Legal(p, h + [c])
  {
    assert (h + [c])[..|h|] == h;
  }

  /** Legality is about every position, whatever comes after it. */
  lemma {:induction false} LegalAt(p: Params, tr: seq<Cmd>, j: nat)
    requires p.mtps > 0 && Legal(p, tr) && j < |tr|
    ensures Allowed(p, tr[..j], tr[j])
  {
    if j < |tr| - 1 {
      LegalAt(p, tr[..|tr| - 1], j);
      assert tr[..|tr| - 1][..j] == tr[..j];
    }
  }

  /* ---- What the history functions say after one more command ---- */

  lemma RowOfSnoc(h: seq<Cmd>, c: Cmd, bank: nat)
    ensures RowOf(h + [c], bank) ==
            match c {
              case Act(at, _, b, row) => if b == bank then Open(row, at) else RowOf(h, bank)
              case Pre(_, b) => if b == bank then Closed else RowOf(h, bank)
              case PreAll(_) => Closed
              case _ => RowOf(h, bank)
            }
  {
    assert (h + [c])[..|h|] == h;
  }

  lemma LastOfSnoc(h: seq<Cmd>, c: Cmd, wantAct: bool)
    ensures LastOf(h + [c], wantAct) ==
            if (if wantAct then c.Act? else c.Col?) then [c] else LastOf(h, wantAct)
  {
    assert (h + [c])[..|h|] == h;
  }

  lemma CountsSnoc(h: seq<Cmd>, c: Cmd)
    ensures ActTimes(h + [c]) == if c.Act? then ActTimes(h) + [c.at] else ActTimes(h)
    ensures RefCount(h + [c]) == RefCount(h) + if c.Ref? then 1 else 0
  {
    assert (h + [c])[..|h|] == h;
  }

  /* ---- From neighbours to all pairs ---- */

  /** The last ACT (column command) of a legal history is the latest one. */
  lemma {:induction false} LastIsLatest(p: Params, h: seq<Cmd>, i: nat, wantAct: bool)
    requires p.TimingsOk() && Legal(p, h) && i < |h|
    requires if wantAct then h[i].Act? else h[i].Col?
    ensures LastOf(h, wantAct) != [] && h[i].at <= LastOf(h, wantAct)[0].at
    ensures h[i] == LastOf(h, wantAct)[0] ||
            h[i].at + (if wantAct then Min(p.tRRD_S, p.tRRD_L) else Min(p.tCCD_S, p.tCCD_L)) <= LastOf(h, wantAct)[0].at
  {
    var n := |h| - 1;
    if i < n {
      LastIsLatest(p, h[..n], i, wantAct);
    }
  }

  /**
    Activates of a whole trace. The rule compares an ACT with the last one only; the spacing holds
    between all pairs as soon as tRRD_L <= 2 tRRD_S, or if there is only one bank group.
   */
  lemma {:induction false} AllPairsRrd(p: Params, tr: seq<Cmd>, i: nat, j: nat)
    requires p.TimingsOk() && Legal(p, tr) && i < j < |tr| && tr[i].Act? && tr[j].Act?
    requires p.tRRD_L <= 2 * p.tRRD_S || forall c :: c in tr && c.Act? ==> c.bg == 0
    ensures tr[i].at + (if tr[i].bg == tr[j].bg then p.tRRD_L else p.tRRD_S) <= tr[j].at
    decreases j
  {
    LegalPrefix(p, tr, j);
    LegalAt(p, tr, j);
    LastIsLatest(p, tr[..j], i, true);
    var m := LastAt(tr[..j], true);
    assert tr[..j][i] == tr[i] && tr[..j][m] == tr[m];
    if i < m { AllPairsRrd(p, tr, i, m); }
  }

  lemma {:induction false} LegalPrefix(p: Params, tr: seq<Cmd>, j: nat)
    requires p.mtps > 0 && Legal(p, tr) && j <= |tr|
    ensures Legal(p, tr[..j])
  {
    if j < |tr| {
      LegalPrefix(p, tr[..|tr| - 1], j);
      assert tr[..|tr| - 1][..j] == tr[..j];
    } else {
      assert tr[..j] == tr;
    }
  }

  /* ---- Whole runs: what a legal trace promises about any two of its commands ---- */

  /** The timing table holds between every two commands, however far apart. */
  lemma EveryPairSpaced(p: Params, tr: seq<Cmd>, i: nat, j: nat)
    requires p.mtps > 0 && Legal(p, tr) && i < j < |tr|
    ensures Spaced(p, tr[i], tr[j])
  {
    hide Spaced, RowRule, NeighbourRule, Shape;
    LegalAt(p, tr, j);
    assert tr[..j][i] == tr[i];
  }

  /** No two transfers share the data bus at any time. */
  lemma BusSlotsDisjoint(p: Params, tr: seq<Cmd>, i: nat, j: nat)
    requires p.mtps > 0 && Legal(p, tr) && i < j < |tr| && tr[i].Col? && tr[j].Col?
    ensures tr[i].end <= tr[j].end - p.BurstPs()
  {
    EveryPairSpaced(p, tr, i, j);
    LegalAt(p, tr, j);
  }

  /** No row is opened and no data moves between the start and the end of a refresh. */
  lemma NothingInsideRefresh(p: Params, tr: seq<Cmd>, r: nat, x: nat)
    requires p.TimingsOk() && Legal(p, tr) && r < |tr| && x < |tr| && tr[r].Ref?
    ensures tr[x].Act? ==> tr[x].at <= tr[r].at || tr[r].end <= tr[x].at
    ensures tr[x].Col? ==> tr[x].end <= tr[r].at || tr[r].end <= tr[x].at
  {
    if x < r { EveryPairSpaced(p, tr, x, r); }
    if r < x { EveryPairSpaced(p, tr, r, x); }
  }

  /** Where the last ACT (column command) of a history stands; nothing of its kind comes after it. */
  lemma {:induction false} LastAt(h: seq<Cmd>, wantAct: bool) returns (m: nat)
    requires LastOf(h, wantAct) != []
    ensures m < |h| && h[m] == LastOf(h, wantAct)[0]
    ensures forall i :: m < i < |h| ==> !(if wantAct then h[i].Act? else h[i].Col?)
  {
    var n := |h| - 1;
    if (if wantAct then h[n].Act? else h[n].Col?) {
      m := n;
    } else {
      m := LastAt(h[..n], wantAct);
    }
  }

  /**
    Turnarounds. The engine looks at the last transfer only. Between a write and any later read
    the shorter tWTR_S holds, however many transfers lie between; between a read and any later
    write the shorter of the two tRTW.
   */
  lemma {:induction false} AllPairsTurnaround(p: Params, tr: seq<Cmd>, i: nat, j: nat)
    requires p.TimingsOk() && Legal(p, tr) && i < j < |tr| && tr[i].Col? && tr[j].Col?
    requires p.tWTR_S <= p.tWTR_L && (p.tRTW_L == 0 || p.tRTW <= p.tRTW_L)
    ensures tr[i].write && !tr[j].write ==> tr[i].end + p.tWTR_S <= tr[j].at
    ensures !tr[i].write && tr[j].write ==> tr[i].at + p.tRTW <= tr[j].at
    decreases j
  {
    LegalPrefix(p, tr, j);
    LegalAt(p, tr, j);
    LastIsLatest(p, tr[..j], i, false);
    var m := LastAt(tr[..j], false);
    assert tr[..j][i] == tr[i] && tr[..j][m] == tr[m];
    if i < m {
      BusSlotsDisjoint(p, tr, i, m);
      AllPairsTurnaround(p, tr, i, m);
    }
  }

  /** Every ACT of a history has its place in the list of ACT times, and the list is in time order. */
  lemma {:induction false} ActPlace(p: Params, h: seq<Cmd>, i: nat)
    requires p.TimingsOk() && Legal(p, h) && i <= |h|
    ensures |ActTimes(h[..i])| <= |ActTimes(h)|
    ensures i < |h| && h[i].Act? ==> |ActTimes(h[..i])| < |ActTimes(h)| && ActTimes(h)[|ActTimes(h[..i])|] == h[i].at
  {
    var n := |h| - 1;
    if i < n {
      ActPlace(p, h[..n], i);
      assert h[..n][..i] == h[..i];
    } else if i == |h| {
      assert h[..i] == h;
    }
  }

  lemma {:induction false} ActsInOrder(p: Params, h: seq<Cmd>, a: nat, b: nat)
    requires p.TimingsOk() && Legal(p, h) && a <= b < |ActTimes(h)|
    ensures ActTimes(h)[a] <= ActTimes(h)[b]
  {
    var n := |h| - 1;
    if !h[n].Act? || b < |ActTimes(h)| - 1 {
      ActsInOrder(p, h[..n], a, b);
    } else if a < b {
      ActsInOrder(p, h[..n], a, b - 1);
      LastActTime(h[..n]);
    }
  }

  lemma {:induction false} LastActTime(h: seq<Cmd>)
    ensures LastOf(h, true) == [] <==> ActTimes(h) == []
    ensures ActTimes(h) != [] ==> ActTimes(h)[|ActTimes(h)| - 1] == LastOf(h, true)[0].at
  {
    if h != [] { LastActTime(h[..|h| - 1]); }
  }

  lemma FourBefore(p: Params, tr: seq<Cmd>, j: nat)
    requires p.mtps > 0 && Legal(p, tr) && j < |tr| && tr[j].Act?
    ensures var acts := ActTimes(tr[..j]); |acts| >= 4 ==> acts[|acts| - 4] + p.tFAW <= tr[j].at
  {
    LegalAt(p, tr, j);
    hide Legal, RowRule, Shape, Spaced, ActTimes;
  }

  /** Never more than four activates in any window of tFAW: the fifth comes tFAW after the first. */
  lemma FourActivateWindow(p: Params, tr: seq<Cmd>, i: seq<nat>)
    requires p.TimingsOk() && Legal(p, tr) && |i| == 5
    requires i[0] < i[1] < i[2] < i[3] < i[4] < |tr|
    requires forall x :: x in i ==> tr[x].Act?
    ensures tr[i[0]].at + p.tFAW <= tr[i[4]].at
  {
    hide Legal, Allowed, NeighbourRule, RowRule, Shape, Spaced, ActTimes;
    var h := tr[..i[4]];
    LegalPrefix(p, tr, i[4]);
    FourBefore(p, tr, i[4]);
    ActStep(p, tr, i[0], i[1]);
    ActStep(p, tr, i[1], i[2]);
    ActStep(p, tr, i[2], i[3]);
    ActStep(p, tr, i[3], i[4]);
    ActPlace(p, h, i[0]);
    assert h[..i[0]] == tr[..i[0]] && h[i[0]] == tr[i[0]];
    ActsInOrder(p, h, |ActTimes(h[..i[0]])|, |ActTimes(h)| - 4);
  }

  lemma ActStep(p: Params, tr: seq<Cmd>, i: nat, j: nat)
    requires p.TimingsOk() && Legal(p, tr) && i < j < |tr| && tr[i].Act?
    ensures |ActTimes(tr[..i])| < |ActTimes(tr[..j])|
  {
    LegalPrefix(p, tr, j);
    ActPlace(p, tr[..j], i);
    assert tr[..j][..i] == tr[..i] && tr[..j][i] == tr[i];
  }
}
