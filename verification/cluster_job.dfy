/**
  One job on a cluster (`runtime/mesh/cluster_main.c`, the loop of `main`): scratch is reserved,
  operands are staged, the compute cores store their slices in any order, results are staged out.
  Proved to leave main memory as one direct call of the kernel would.
 */
module ClusterJob {
  import opened Arith
  import opened Options
  import opened Calls
  import opened Staging
  import Offload

  /** What a compute core does between the barriers: it stores a byte of its share, or of its scratch. */
  datatype Store = Result(core: nat, at: nat) | Scribble(core: nat, at: nat, value: Byte)

  /* ---- What a job should come to ---- */

  function OutputBytes(kernel: nat, a: Args): nat
    requires Asked(kernel, a)
  {
    JobUnits(kernel, a) * UnitBytes(kernel, a)
  }

  ghost predicate InOutput(kernel: nat, a: Args, x: nat)
    requires Asked(kernel, a)
  {
    a[OutputSlot(kernel)] <= x < a[OutputSlot(kernel)] + OutputBytes(kernel, a)
  }

  /** The memory after one call of the kernel on the job's own arguments. */
  ghost function Direct<E>(en: Encoding<E>, kernel: nat, a: Args, m: seq<Byte>): (m': seq<Byte>)
    requires Asked(kernel, a)
    ensures |m'| == |m|
  {
    seq(|m|, x requires 0 <= x < |m| => if InOutput(kernel, a, x) then DirectByte(en, kernel, a, m, x) else m[x])
  }

  /** The byte a direct call stores at x. */
  function DirectByte<E>(en: Encoding<E>, kernel: nat, a: Args, m: seq<Byte>, x: nat): Byte
    requires Asked(kernel, a) && InOutput(kernel, a, x)
  {
    Stored(en, Load(en, kernel, a, m), x - a[OutputSlot(kernel)])
  }

  ghost predicate InScratch(s: Offload.Scratch, cores: nat, x: nat) { s.base != 0 && s.base <= x < Slab(s, cores) }

  /** An operand's memory is there; what the cores write is apart from what they read. */
  predicate OperandReady(op: Operand, at: nat, out: nat, n: nat, s: Offload.Scratch, cores: nat, size: nat) {
    && at + op.bytes <= size
    && (s.base != 0 ==> at + op.bytes <= s.base || Slab(s, cores) <= at)
    && (!op.output ==> Disjoint(at, op.bytes, out, n))
  }

  ghost predicate Ready(kernel: nat, a: Args, s: Offload.Scratch, cores: nat, size: nat) {
    && Asked(kernel, a) && (s.base != 0 ==> Slab(s, cores) <= size)
    && forall op :: op in PlanOperands(kernel, a) ==>
         OperandReady(op, a[op.slot], a[OutputSlot(kernel)], OutputBytes(kernel, a), s, cores, size)
  }

  lemma PlannedOutput(kernel: nat, a: Args)
    requires Asked(kernel, a)
    ensures PlanOperands(kernel, a) == [] ==> OutputBytes(kernel, a) == 0
    ensures PlanOperands(kernel, a) != [] ==>
              Operand(OutputSlot(kernel), true, OutputBytes(kernel, a)) in PlanOperands(kernel, a)
    ensures forall op :: op in PlanOperands(kernel, a) && op.output ==>
              op == Operand(OutputSlot(kernel), true, OutputBytes(kernel, a))
  {
    var ops := PlanOperands(kernel, a);
    if kernel == K_MATMUL { assert ops[2].output; MulAssoc(a[MM_M], a[MM_O], 4); }
    else if kernel == K_GEMM { assert ops[3].output; MulAssoc(a[GEMM_M], a[GEMM_O], 4); }
    else if kernel == K_CONV2D { assert ops[2].output; MulAssoc(a[CONV_F], ConvOf(a).Plane(), 4); }
    else if kernel == K_MFCC { assert ops[1].output; MulAssoc(a[MFCC_NB_FRAMES], a[MFCC_NB_CEP], 4); }
  }

  /** Some of the result is stored, the rest of memory is as it was; scratch holds anything. */
  ghost predicate Partial<E>(en: Encoding<E>, kernel: nat, a: Args, s: Offload.Scratch, cores: nat, was: seq<Byte>,
                             m: seq<Byte>)
    requires Asked(kernel, a)
  {
    && |m| == |was|
    && forall x: nat :: x < |m| && !InScratch(s, cores, x) ==>
         m[x] == was[x] || (InOutput(kernel, a, x) && m[x] == Direct(en, kernel, a, was)[x])
  }

  /** While the cores store, what they read stays. */
  lemma InputsStay<E>(en: Encoding<E>, kernel: nat, a: Args, s: Offload.Scratch, cores: nat, was: seq<Byte>,
                      m: seq<Byte>)
    requires Ready(kernel, a, s, cores, |was|) && Partial(en, kernel, a, s, cores, was, m)
    ensures Load(en, kernel, a, m) == Load(en, kernel, a, was)
  {
    forall op | op in PlanOperands(kernel, a) && !op.output
      ensures SameBytes(was, a[op.slot], m, a[op.slot], op.bytes) {
      forall i: nat | i < op.bytes ensures AtOffset(was, a[op.slot], i) == AtOffset(m, a[op.slot], i) {
        var x := a[op.slot] + i;
        assert !InOutput(kernel, a, x) && !InScratch(s, cores, x);
      }
    }
    hide SameBytes, PlanOperands, Load;
    Relocated(en, kernel, a, was, a, m);
  }

  /* ---- Shares of the result ---- */

  /** The share of a core, if it has one. */
  predicate HasShare(kernel: nat, a: Args, core: nat, cores: nat)
    requires cores > 0
  {
    core < cores && First(kernel, a, core, cores) < Last(kernel, a, core, cores)
  }

  lemma ShareInside(kernel: nat, a: Args, core: nat, cores: nat)
    requires cores > 0 && HasShare(kernel, a, core, cores)
    ensures Last(kernel, a, core, cores) <= JobUnits(kernel, a)
    ensures kernel == K_GEMM && a[GEMM_TRANSA] != 0 ==>
              First(kernel, a, core, cores) == 0 && Last(kernel, a, core, cores) == JobUnits(kernel, a)
  {
    SliceStartsGrow(JobUnits(kernel, a), core + 1, cores, cores);
  }

  function ShareBytes(kernel: nat, a: Args, core: nat, cores: nat): nat
    requires Asked(kernel, a) && cores > 0
  {
    if HasShare(kernel, a, core, cores) then
       (Last(kernel, a, core, cores) - First(kernel, a, core, cores)) * UnitBytes(kernel, a) else 0
  }

  /** Where byte `at` of a core's share belongs. */
  function Place(kernel: nat, a: Args, core: nat, cores: nat, at: nat): nat
    requires Asked(kernel, a) && cores > 0
  {
    MulMono(0, First(kernel, a, core, cores), UnitBytes(kernel, a));
    a[OutputSlot(kernel)] + First(kernel, a, core, cores) * UnitBytes(kernel, a) + at
  }

  lemma PlaceInOutput(kernel: nat, a: Args, core: nat, cores: nat, at: nat)
    requires Asked(kernel, a) && cores > 0 && at < ShareBytes(kernel, a, core, cores)
    ensures HasShare(kernel, a, core, cores) && InOutput(kernel, a, Place(kernel, a, core, cores, at))
  {
    var f, l, ub := First(kernel, a, core, cores), Last(kernel, a, core, cores), UnitBytes(kernel, a);
    ShareInside(kernel, a, core, cores);
    Distribute(l - f, f, ub);
    MulMono(l, JobUnits(kernel, a), ub);
    MulMono(0, f, ub);
  }

  /** The arguments a core runs with. */
  function Mine(kernel: nat, a: Args, core: nat, cores: nat): (sl: Args)
    requires Asked(kernel, a) && cores > 0 && HasShare(kernel, a, core, cores)
    ensures Asked(kernel, sl)
  {
    Sliced(kernel, a, First(kernel, a, core, cores), Last(kernel, a, core, cores))
  }

  lemma MyOutput(kernel: nat, a: Args, core: nat, cores: nat)
    requires Asked(kernel, a) && cores > 0 && HasShare(kernel, a, core, cores)
    ensures Mine(kernel, a, core, cores)[OutputSlot(kernel)] == Place(kernel, a, core, cores, 0)
  {
    var first := First(kernel, a, core, cores);
    hide First, Last;
    if kernel == K_MATMUL { MulAssoc(first, a[MM_O], 4); }
    else if kernel == K_GEMM { MulAssoc(first, a[GEMM_O], 4); }
    else if kernel == K_CONV2D { MulAssoc(first, ConvOf(a).Plane(), 4); }
    else if kernel == K_MFCC { MulAssoc(first, a[MFCC_NB_CEP], 4); }
  }

  /** What a core stores, working on its sliced arguments, is what a direct call stores there. */
  lemma ShareIsDirect<E(!new)>(en: Encoding<E>, kernel: nat, a: Args, core: nat, cores: nat, m: seq<Byte>, at: nat)
    requires Asked(kernel, a) && cores > 0 && at < ShareBytes(kernel, a, core, cores)
    requires HasShare(kernel, a, core, cores) && InOutput(kernel, a, Place(kernel, a, core, cores, at))
    ensures Stored(en, Load(en, kernel, Mine(kernel, a, core, cores), m), at) ==
              DirectByte(en, kernel, a, m, Place(kernel, a, core, cores, at))
  {
    hide *;
    var f, l := MyShare(kernel, a, core, cores, at);
    var x := Place(kernel, a, core, cores, at);
    SlicedIsShare(en, kernel, a, f, l, m);
    ByteOfShare(en, kernel, a, f, l, m, at);
    DirectIs(en, kernel, a, m, x);
  }

  lemma MyShare(kernel: nat, a: Args, core: nat, cores: nat, at: nat) returns (f: nat, l: nat)
    requires Asked(kernel, a) && cores > 0 && at < ShareBytes(kernel, a, core, cores)
    ensures HasShare(kernel, a, core, cores) && f < l <= JobUnits(kernel, a)
    ensures kernel == K_GEMM && a[GEMM_TRANSA] != 0 ==> f == 0 && l == JobUnits(kernel, a)
    ensures Mine(kernel, a, core, cores) == Sliced(kernel, a, f, l) && at < (l - f) * UnitBytes(kernel, a)
    ensures Place(kernel, a, core, cores, at) - a[OutputSlot(kernel)] == f * UnitBytes(kernel, a) + at
  {
    assert HasShare(kernel, a, core, cores);
    ShareInside(kernel, a, core, cores);
    f, l := First(kernel, a, core, cores), Last(kernel, a, core, cores);
    hide Sliced, UnitBytes, JobUnits, SliceStart;
  }

  lemma DirectIs<E>(en: Encoding<E>, kernel: nat, a: Args, m: seq<Byte>, x: nat)
    requires Asked(kernel, a) && InOutput(kernel, a, x)
    ensures DirectByte(en, kernel, a, m, x) == Stored(en, Load(en, kernel, a, m), x - a[OutputSlot(kernel)])
  {
  }

  lemma ByteOfShare<E(!new)>(en: Encoding<E>, kernel: nat, a: Args, f: nat, l: nat, m: seq<Byte>, at: nat)
    requires Asked(kernel, a) && f < l <= JobUnits(kernel, a) && at < (l - f) * UnitBytes(kernel, a)
    requires kernel == K_GEMM && a[GEMM_TRANSA] != 0 ==> f == 0 && l == JobUnits(kernel, a)
    ensures Units(Load(en, kernel, a, m)) == JobUnits(kernel, a) &&
            (Whole(Load(en, kernel, a, m)) ==> f == 0 && l == JobUnits(kernel, a))
    ensures 0 <= f * UnitBytes(kernel, a)
    ensures Stored(en, Share(Load(en, kernel, a, m), f, l), at) ==
              Stored(en, Load(en, kernel, a, m), f * UnitBytes(kernel, a) + at)
  {
    hide Load, Share, ElementOf, UnitLength, Units, Whole, JobUnits, UnitBytes;
    var call := Load(en, kernel, a, m);
    var n := UnitLength(call);
    UnitsMatch(en, kernel, a, m);
    WholeIs(en, kernel, a, m);
    MulMono(0, f, n);
    MulAssoc(f, n, 4); MulAssoc(l - f, n, 4);
    Quarter(f * n, at, (l - f) * n);
    ShareComputesItsPart(en.nu, call, f, l, at / 4);
  }

  lemma WholeIs<E>(en: Encoding<E>, kernel: nat, a: Args, m: seq<Byte>)
    requires Asked(kernel, a)
    ensures Whole(Load(en, kernel, a, m)) ==> kernel == K_GEMM && a[GEMM_TRANSA] != 0
  {
  }

  lemma Quarter(whole: nat, at: nat, bound: nat)
    requires at < bound * 4
    ensures at / 4 < bound && (whole * 4 + at) / 4 == whole + at / 4 && (whole * 4 + at) % 4 == at % 4
  {
  }

  /** Every byte of the result is in some core's share. */
  lemma SomeCoresShare(kernel: nat, a: Args, cores: nat, x: nat) returns (core: nat, at: nat)
    requires Asked(kernel, a) && cores > 0 && InOutput(kernel, a, x)
    ensures at < ShareBytes(kernel, a, core, cores) && Place(kernel, a, core, cores, at) == x
  {
    var n, ub, q := JobUnits(kernel, a), UnitBytes(kernel, a), x - a[OutputSlot(kernel)];
    var u, rest := UnitAt(q, ub, 0, n);
    if kernel == K_GEMM && a[GEMM_TRANSA] != 0 {
      core, at := 0, q;
    } else {
      SlicesPartition(n, cores - 1, cores);
      hide SliceStart, JobUnits, UnitBytes;
      core := SliceOf(n, u, cores, cores);
      at := WithinSlice(q, u, rest, ub, SliceStart(n, core, cores), SliceStart(n, core + 1, cores));
    }
  }

  lemma WithinSlice(q: nat, u: nat, rest: nat, n: nat, f: nat, l: nat) returns (at: nat)
    requires q == u * n + rest && rest < n && f <= u < l
    ensures q == f * n + at && at < (l - f) * n
  {
    MulStep(u - f, l - f, n); Distribute(u - f, f, n); MulMono(f, u, n);
    at := q - f * n;
  }

  /** Which store of the schedule puts byte x in its place. */
  ghost predicate Complete(kernel: nat, a: Args, cores: nat, schedule: seq<Store>)
    requires Asked(kernel, a) && cores > 0
  {
    forall core: nat, at: nat :: at < ShareBytes(kernel, a, core, cores) ==> Result(core, at) in schedule
  }

  /** The stores of a schedule so far are in place. */
  ghost predicate Landed<E>(en: Encoding<E>, kernel: nat, a: Args, cores: nat, was: seq<Byte>, m: seq<Byte>,
                            done: seq<Store>)
    requires Asked(kernel, a) && cores > 0
  {
    forall core: nat, at: nat :: Result(core, at) in done && at < ShareBytes(kernel, a, core, cores) ==>
      LandedAt(en, kernel, a, was, m, Place(kernel, a, core, cores, at))
  }

  ghost predicate LandedAt<E>(en: Encoding<E>, kernel: nat, a: Args, was: seq<Byte>, m: seq<Byte>, x: nat)
    requires Asked(kernel, a)
  {
    InOutput(kernel, a, x) && x < |m| && m[x] == DirectByte(en, kernel, a, was, x)
  }

  /** One more byte of a core's share. */
  lemma StoreResult<E(!new)>(en: Encoding<E>, kernel: nat, a: Args, s: Offload.Scratch, cores: nat, was: seq<Byte>,
                             m: seq<Byte>,
                             done: seq<Store>, core: nat, at: nat)
    requires Ready(kernel, a, s, cores, |was|) && cores > 0 && at < ShareBytes(kernel, a, core, cores)
    requires Partial(en, kernel, a, s, cores, was, m) && Landed(en, kernel, a, cores, was, m, done)
    ensures HasShare(kernel, a, core, cores)
    ensures var x, v := Mine(kernel, a, core, cores)[OutputSlot(kernel)] + at,
            Stored(en, Load(en, kernel, Mine(kernel, a, core, cores), m), at);
            && x < |m| && Partial(en, kernel, a, s, cores, was, m[x := v])
            && Landed(en, kernel, a, cores, was, m[x := v], done + [Result(core, at)])
  {
    PlaceInOutput(kernel, a, core, cores, at);
    MyOutput(kernel, a, core, cores);
    var x, v := Place(kernel, a, core, cores, at), Stored(en, Load(en, kernel, Mine(kernel, a, core, cores), m), at);
    assert x == Place(kernel, a, core, cores, 0) + at;
    OutputInside(kernel, a, s, cores, |was|, x);
    assert |m| == |was|;
    hide *;
    ShareIsDirect(en, kernel, a, core, cores, m, at);
    InputsStay(en, kernel, a, s, cores, was, m);
    DirectIs(en, kernel, a, m, x);
    DirectIs(en, kernel, a, was, x);
    ByteLands(en, kernel, a, s, cores, was, m, done, core, at, x, v);
  }

  lemma OutputInside(kernel: nat, a: Args, s: Offload.Scratch, cores: nat, size: nat, x: nat)
    requires Ready(kernel, a, s, cores, size) && InOutput(kernel, a, x)
    ensures x < size
  {
    PlannedOutput(kernel, a);
    hide PlanOperands, OutputBytes, Slab;
  }

  lemma ByteLands<E>(en: Encoding<E>, kernel: nat, a: Args, s: Offload.Scratch, cores: nat, was: seq<Byte>,
                     m: seq<Byte>,
                     done: seq<Store>, core: nat, at: nat, x: nat, v: Byte)
    requires Asked(kernel, a) && cores > 0 && at < ShareBytes(kernel, a, core, cores) &&
             x == Place(kernel, a, core, cores, at)
    requires Partial(en, kernel, a, s, cores, was, m) && Landed(en, kernel, a, cores, was, m, done)
    requires x < |m| && InOutput(kernel, a, x) && v == DirectByte(en, kernel, a, was, x)
    ensures Partial(en, kernel, a, s, cores, was, m[x := v])
    ensures Landed(en, kernel, a, cores, was, m[x := v], done + [Result(core, at)])
  {
    hide DirectByte, InOutput, Place, ShareBytes, InScratch;
    assert Direct(en, kernel, a, was)[x] == v;
  }

  lemma ScratchApart(kernel: nat, a: Args, s: Offload.Scratch, cores: nat, size: nat, x: nat)
    requires Ready(kernel, a, s, cores, size) && InScratch(s, cores, x)
    ensures !InOutput(kernel, a, x)
  {
    PlannedOutput(kernel, a);
    hide PlanOperands, OutputBytes, Slab;
  }

  /** A byte of scratch. */
  lemma StoreScratch<E>(en: Encoding<E>, kernel: nat, a: Args, s: Offload.Scratch, cores: nat, was: seq<Byte>,
                        m: seq<Byte>,
                        done: seq<Store>, core: nat, at: nat, v: Byte)
    requires Ready(kernel, a, s, cores, |was|) && cores > 0 && core < cores && at < s.stride && s.base != 0
    requires Partial(en, kernel, a, s, cores, was, m) && Landed(en, kernel, a, cores, was, m, done)
    ensures var x := Slab(s, core) + at;
            && x < |m| && Partial(en, kernel, a, s, cores, was, m[x := v])
            && Landed(en, kernel, a, cores, was, m[x := v], done + [Scribble(core, at, v)])
  {
    var x := Slab(s, core) + at;
    MulStep(core, cores, s.stride);
    assert InScratch(s, cores, x) && x < |was|;
    hide Slab, InScratch, PlanOperands, Partial, Landed, Ready;
    ScratchApart(kernel, a, s, cores, |was|, x);
    ScratchLands(en, kernel, a, s, cores, was, m, done, Scribble(core, at, v), x, v);
  }

  lemma ScratchLands<E>(en: Encoding<E>, kernel: nat, a: Args, s: Offload.Scratch, cores: nat, was: seq<Byte>,
                        m: seq<Byte>,
                        done: seq<Store>, store: Store, x: nat, v: Byte)
    requires Asked(kernel, a) && cores > 0 && store.Scribble?
    requires Partial(en, kernel, a, s, cores, was, m) && Landed(en, kernel, a, cores, was, m, done)
    requires x < |m| && InScratch(s, cores, x) && !InOutput(kernel, a, x)
    ensures Partial(en, kernel, a, s, cores, was, m[x := v])
    ensures Landed(en, kernel, a, cores, was, m[x := v], done + [store])
  {
    hide DirectByte, InOutput, Place, ShareBytes, InScratch, Direct;
  }

  /** All stores done, memory outside scratch is that of a direct call. */
  lemma AllLanded<E>(en: Encoding<E>, kernel: nat, a: Args, s: Offload.Scratch, cores: nat, was: seq<Byte>,
                     m: seq<Byte>, done: seq<Store>)
    requires Ready(kernel, a, s, cores, |was|) && cores > 0 && Complete(kernel, a, cores, done)
    requires Partial(en, kernel, a, s, cores, was, m) && Landed(en, kernel, a, cores, was, m, done)
    ensures forall x: nat :: x < |m| && !InScratch(s, cores, x) ==> m[x] == Direct(en, kernel, a, was)[x]
  {
    forall x: nat | x < |m| && !InScratch(s, cores, x) ensures m[x] == Direct(en, kernel, a, was)[x] {
      if InOutput(kernel, a, x) {
        var core, at := SomeCoresShare(kernel, a, cores, x);
        hide Place, ShareBytes, InOutput, DirectByte, InScratch;
        assert LandedAt(en, kernel, a, was, m, x);
      }
    }
  }

  /* ---- Staged operands ---- */

  /** The operands are in main memory, and the result is apart from what is read. */
  ghost predicate InMain(kernel: nat, a: Args, heap: Heap, size: nat)
    requires heap.start <= heap.end
  {
    && Asked(kernel, a)
    && forall op :: op in PlanOperands(kernel, a) ==>
         && a[op.slot] + op.bytes <= size && Disjoint(a[op.slot], op.bytes, heap.start, heap.end - heap.start)
         && (!op.output ==> Disjoint(a[op.slot], op.bytes, a[OutputSlot(kernel)], OutputBytes(kernel, a)))
  }

  /** The staged operands, as the protocol has them. */
  function Moved(ops: seq<Operand>, cursor: nat): (moved: seq<Offload.Placement>)
    ensures |moved| == |ops|
  {
    seq(|ops|, i requires 0 <= i < |ops| => Offload.Placement(ops[i].slot, Local(ops, cursor, i), ops[i].output))
  }

  lemma {:induction false} RewrittenAt(a: Args, ops: seq<Operand>, cursor: nat, n: nat)
    requires n <= |ops| && (forall i :: 0 <= i < |ops| ==> ops[i].slot < |a|)
    requires forall i, j :: 0 <= i < j < |ops| ==> ops[i].slot != ops[j].slot
    ensures forall i :: 0 <= i < n ==> Offload.Rewritten(a, Moved(ops, cursor), n)[ops[i].slot] == Local(ops, cursor, i)
    ensures forall s :: 0 <= s < |a| && (forall i :: 0 <= i < n ==> ops[i].slot != s) ==>
              Offload.Rewritten(a, Moved(ops, cursor), n)[s] == a[s]
  {
    hide Local;
    if n > 0 { RewrittenAt(a, ops, cursor, n - 1); }
  }

  /**
    The first n operands have been copied to their places; the rest of memory outside the heap's free part
    is as it was.
   */
  ghost predicate Copied(ops: seq<Operand>, cursor: nat, end: nat, a: Args, was: seq<Byte>, m: seq<Byte>, n: nat)
    requires n <= |ops| && forall op :: op in ops ==> op.slot < |a|
  {
    && |m| == |was| && (forall x: nat :: x < |m| && !(cursor <= x < end) ==> m[x] == was[x])
    && (forall i: nat :: i < n && !ops[i].output ==>
        SameBytes(was, a[ops[i].slot], m, Local(ops, cursor, i), ops[i].bytes))
    && (forall i: nat :: i < |ops| && ops[i].output ==>
        SameBytes(was, Local(ops, cursor, i), m, Local(ops, cursor, i), ops[i].bytes))
  }

  /** Memory m' is memory m with n bytes from `src` copied to `dst`. */
  ghost predicate IsCopy(m: seq<Byte>, m': seq<Byte>, dst: nat, src: nat, n: nat)
    requires dst + n <= |m| && src + n <= |m| && |m'| == |m|
  {
    && (forall x: nat :: dst <= x < dst + n ==> m'[x] == m[src + (x - dst)])
    && (forall x: nat :: x < |m| && !(dst <= x < dst + n) ==> m'[x] == m[x])
  }

  lemma CopyCopies(m: seq<Byte>, m': seq<Byte>, dst: nat, src: nat, n: nat)
    requires dst + n <= |m| && src + n <= |m| && |m'| == |m| && IsCopy(m, m', dst, src, n)
    ensures SameBytes(m, src, m', dst, n)
  {
    forall i: nat | i < n ensures AtOffset(m, src, i) == AtOffset(m', dst, i) {
      assert m'[dst + i] == m[src + (dst + i - dst)];
    }
  }

  lemma CopySpares(m: seq<Byte>, m': seq<Byte>, dst: nat, src: nat, n: nat, at: nat, k: nat)
    requires dst + n <= |m| && src + n <= |m| && |m'| == |m| && IsCopy(m, m', dst, src, n) && Disjoint(dst, n, at, k)
    ensures SameBytes(m, at, m', at, k)
  {
    forall i: nat | i < k ensures AtOffset(m, at, i) == AtOffset(m', at, i) {
      if at + i < |m| { assert m'[at + i] == m[at + i]; }
    }
  }

  lemma NothingCopied(ops: seq<Operand>, cursor: nat, end: nat, a: Args, m: seq<Byte>)
    requires forall op :: op in ops ==> op.slot < |a|
    ensures Copied(ops, cursor, end, a, m, m, 0)
  {
  }

  lemma SkipOne(ops: seq<Operand>, cursor: nat, end: nat, a: Args, was: seq<Byte>, m: seq<Byte>, n: nat)
    requires n < |ops| && (forall op :: op in ops ==> op.slot < |a|) && ops[n].output &&
             Copied(ops, cursor, end, a, was, m, n)
    ensures Copied(ops, cursor, end, a, was, m, n + 1)
  {
  }

  /** Copying one more. */
  lemma CopyOne(ops: seq<Operand>, cursor: nat, end: nat, a: Args, was: seq<Byte>, m: seq<Byte>, m': seq<Byte>, n: nat)
    requires n < |ops| && (forall op :: op in ops ==> op.slot < |a|) && Fits(ops, cursor, end) && end <= |was|
    requires Copied(ops, cursor, end, a, was, m, n) && !ops[n].output && |m'| == |m| &&
             a[ops[n].slot] + ops[n].bytes <= |m|
    requires Local(ops, cursor, n) + ops[n].bytes <= |m|
    requires a[ops[n].slot] + ops[n].bytes <= cursor || end <= a[ops[n].slot]
    requires IsCopy(m, m', Local(ops, cursor, n), a[ops[n].slot], ops[n].bytes)
    ensures Copied(ops, cursor, end, a, was, m', n + 1)
  {
    var src, dst, k := a[ops[n].slot], Local(ops, cursor, n), ops[n].bytes;
    assert |m| == |was| && cursor <= dst && dst + k <= end;
    assert SameBytes(was, src, m, src, k) by { OutsideSame(was, m, cursor, end, src, k); }
    CopyCopies(m, m', dst, src, k);
    SameBytesOn(was, src, m, src, m', dst, k);
    forall i: nat | i < |ops| && i != n
      ensures SameBytes(m, Local(ops, cursor, i), m', Local(ops, cursor, i), ops[i].bytes)
    {
      if i < n { CursorGrows(ops, cursor, i, n); } else { CursorGrows(ops, cursor, n, i); }
      CopySpares(m, m', dst, src, k, Local(ops, cursor, i), ops[i].bytes);
    }
    OthersCopied(ops, cursor, end, a, was, m, m', n);
  }

  lemma OutsideSame(was: seq<Byte>, m: seq<Byte>, cursor: nat, end: nat, at: nat, k: nat)
    requires |m| == |was| && (at + k <= cursor || end <= at) && forall x: nat :: x < |m| && !(cursor <= x < end) ==>
               m[x] == was[x]
    ensures SameBytes(was, at, m, at, k)
  {
    forall i: nat | i < k ensures AtOffset(was, at, i) == AtOffset(m, at, i) {
      if at + i < |m| { assert m[at + i] == was[at + i]; }
    }
  }

  lemma OthersCopied(ops: seq<Operand>, cursor: nat, end: nat, a: Args, was: seq<Byte>, m: seq<Byte>, m': seq<Byte>,
                     n: nat)
    requires n < |ops| && (forall op :: op in ops ==> op.slot < |a|) && Copied(ops, cursor, end, a, was, m, n) &&
             !ops[n].output && |m'| == |m|
    requires a[ops[n].slot] + ops[n].bytes <= |m| && cursor <= Local(ops, cursor, n) &&
             Local(ops, cursor, n) + ops[n].bytes <= end <= |m|
    requires IsCopy(m, m', Local(ops, cursor, n), a[ops[n].slot], ops[n].bytes)
    requires SameBytes(was, a[ops[n].slot], m', Local(ops, cursor, n), ops[n].bytes)
    requires forall i: nat :: i < |ops| && i != n ==>
               SameBytes(m, Local(ops, cursor, i), m', Local(ops, cursor, i), ops[i].bytes)
    ensures Copied(ops, cursor, end, a, was, m', n + 1)
  {
    forall x: nat | x < |m| && !(cursor <= x < end) ensures m'[x] == was[x] {
      assert m[x] == was[x];
    }
    hide SameBytes, IsCopy, Local;
    forall i: nat | i < n && !ops[i].output ensures SameBytes(was, a[ops[i].slot], m', Local(ops, cursor, i),
                                                              ops[i].bytes) {
      SameBytesOn(was, a[ops[i].slot], m, Local(ops, cursor, i), m', Local(ops, cursor, i), ops[i].bytes);
    }
    forall i: nat | i < |ops| && ops[i].output
      ensures SameBytes(was, Local(ops, cursor, i), m', Local(ops, cursor, i), ops[i].bytes) {
      SameBytesOn(was, Local(ops, cursor, i), m, Local(ops, cursor, i), m', Local(ops, cursor, i), ops[i].bytes);
    }
  }

  /** After staging, the kernel reads the same through the rewritten arguments, and its cores keep apart. */
  lemma StagedRun<E>(en: Encoding<E>, kernel: nat, a: Args, heap: Heap, was: seq<Byte>, m: seq<Byte>)
    requires heap.start <= heap.end <= |was| && InMain(kernel, a, heap, |was|)
    requires var ops, cursor := PlanOperands(kernel, a), CursorAt(heap, PlanScratch(kernel, a));
             Fits(ops, cursor, heap.end) && Copied(ops, cursor, heap.end, a, was, m, |ops|)
    ensures var ops, cursor := PlanOperands(kernel, a), CursorAt(heap, PlanScratch(kernel, a));
            var a' := Offload.Rewritten(a, Moved(ops, cursor), |ops|);
            && SameInputs(kernel, a, was, a', m) && Asked(kernel, a') &&
               Load(en, kernel, a', m) == Load(en, kernel, a, was)
            && Ready(kernel, a', ScratchAt(heap, PlanScratch(kernel, a)), heap.cores, |m|) &&
               OutputBytes(kernel, a') == OutputBytes(kernel, a)
            && forall i :: 0 <= i < |ops| ==> a'[ops[i].slot] == Local(ops, cursor, i)
  {
    var ops, cursor := PlanOperands(kernel, a), CursorAt(heap, PlanScratch(kernel, a));
    var a' := Offload.Rewritten(a, Moved(ops, cursor), |ops|);
    RewrittenAt(a, ops, cursor, |ops|);
    StagedInputs(kernel, a, heap, was, m);
    Relocated(en, kernel, a, was, a', m);
    StagedReady(kernel, a, a', heap, |m|);
  }

  lemma StagedInputs(kernel: nat, a: Args, heap: Heap, was: seq<Byte>, m: seq<Byte>)
    requires Asked(kernel, a)
    requires var ops, cursor := PlanOperands(kernel, a), CursorAt(heap, PlanScratch(kernel, a));
             Fits(ops, cursor, heap.end) && Copied(ops, cursor, heap.end, a, was, m, |ops|)
    ensures var ops, cursor := PlanOperands(kernel, a), CursorAt(heap, PlanScratch(kernel, a));
            SameInputs(kernel, a, was, Offload.Rewritten(a, Moved(ops, cursor), |ops|), m)
  {
    var ops, cursor := PlanOperands(kernel, a), CursorAt(heap, PlanScratch(kernel, a));
    RewrittenAt(a, ops, cursor, |ops|);
    hide PlanOperands, SameBytes, Local, CursorAt, PlanScratch, Moved, Offload.Rewritten;
  }

  lemma StagedReady(kernel: nat, a: Args, a': Args, heap: Heap, size: nat)
    requires heap.start <= heap.end <= size && Asked(kernel, a) && Asked(kernel, a') &&
             PlanOperands(kernel, a') == PlanOperands(kernel, a)
    requires var ops, cursor := PlanOperands(kernel, a), CursorAt(heap, PlanScratch(kernel, a));
             Fits(ops, cursor, heap.end) && forall i :: 0 <= i < |ops| ==> a'[ops[i].slot] == Local(ops, cursor, i)
    ensures Ready(kernel, a', ScratchAt(heap, PlanScratch(kernel, a)), heap.cores, size) &&
            OutputBytes(kernel, a') == OutputBytes(kernel, a)
  {
    var ops, s := PlanOperands(kernel, a), ScratchAt(heap, PlanScratch(kernel, a));
    var cursor := CursorAt(heap, PlanScratch(kernel, a));
    PlannedOutput(kernel, a);
    PlannedOutput(kernel, a');
    ScratchBelow(heap, PlanScratch(kernel, a));
    var n := OutputBytes(kernel, a');
    hide PlanOperands, ScratchAt, CursorAt, PlanScratch, OutputBytes, Local, Slab, OperandReady;
    forall i | 0 <= i < |ops| ensures OperandReady(ops[i], a'[ops[i].slot], a'[OutputSlot(kernel)], n, s, heap.cores,
                                                   size) {
      if !ops[i].output {
        var out :| 0 <= out < |ops| && ops[out] == Operand(OutputSlot(kernel), true, n);
        PlacedReady(ops, cursor, i, out, s, heap.cores, size);
      } else {
        assert ops[i] in ops;
        PlacedReady(ops, cursor, i, i, s, heap.cores, size);
      }
    }
  }

  lemma PlacedReady(ops: seq<Operand>, cursor: nat, i: nat, out: nat, s: Offload.Scratch, cores: nat, size: nat)
    requires i < |ops| && out < |ops| && ops[out].output && (ops[i].output ==> i == out)
    requires Local(ops, cursor, i) + ops[i].bytes <= size && (s.base != 0 ==> Slab(s, cores) <= cursor)
    ensures OperandReady(ops[i], Local(ops, cursor, i), Local(ops, cursor, out), ops[out].bytes, s, cores, size)
  {
    hide Slab;
    if i < out { CursorGrows(ops, cursor, i, out); } else if out < i { CursorGrows(ops, cursor, out, i); }
  }

  /** The slabs end where the operands may begin. */
  lemma ScratchBelow(heap: Heap, bytes: nat)
    ensures var s := ScratchAt(heap, bytes);
            && heap.start <= CursorAt(heap, bytes)
            && (s.base != 0 ==> Slab(s, heap.cores) == CursorAt(heap, bytes) <= heap.end && heap.start <= s.base)
  {
    MulMono(0, heap.cores, ScratchAt(heap, bytes).stride);
  }

  lemma UnstagedReady(kernel: nat, a: Args, heap: Heap, size: nat)
    requires heap.start <= heap.end <= size && InMain(kernel, a, heap, size)
    ensures Ready(kernel, a, ScratchAt(heap, PlanScratch(kernel, a)), heap.cores, size)
  {
    ScratchBelow(heap, PlanScratch(kernel, a));
    hide PlanOperands, ScratchAt, CursorAt, PlanScratch, OutputBytes;
  }

  /** A refused job runs nothing. */
  lemma NothingRuns<E>(en: Encoding<E>, a: Args, s: Offload.Scratch, cores: nat, schedule: seq<Store>, m: seq<Byte>)
    requires cores > 0 && (s.base != 0 ==> Slab(s, cores) <= |m|)
    ensures Ready(Offload.K_NONE, a, s, cores, |m|) && Complete(Offload.K_NONE, a, cores, schedule) &&
            Direct(en, Offload.K_NONE, a, m) == m
  {
    forall core: nat | core < cores ensures !HasShare(Offload.K_NONE, a, core, cores) {
      if HasShare(Offload.K_NONE, a, core, cores) { ShareInside(Offload.K_NONE, a, core, cores); }
    }
  }

  /* ---- Results back in main memory ---- */

  /** What was copied out is what a direct call stores, and nothing else outside the heap has changed. */
  lemma CopiedBack<E>(en: Encoding<E>, kernel: nat, a: Args, a': Args, s: Offload.Scratch, heap: Heap,
                      was: seq<Byte>, m1: seq<Byte>, m2: seq<Byte>, m3: seq<Byte>, x: nat)
    requires Asked(kernel, a) && Asked(kernel, a') && |was| == |m1| == |m2| == |m3| && x < |was| &&
             !(heap.start <= x < heap.end)
    requires Load(en, kernel, a', m1) == Load(en, kernel, a, was) &&
             OutputBytes(kernel, a') == OutputBytes(kernel, a) && m1[x] == was[x]
    requires var main, place, n := a[OutputSlot(kernel)], a'[OutputSlot(kernel)], OutputBytes(kernel, a);
             && main + n <= |was| && heap.start <= place && place + n <= heap.end <= |was| &&
                IsCopy(m2, m3, main, place, n)
             && (s.base != 0 ==> heap.start <= s.base && Slab(s, heap.cores) <= place)
    requires forall y: nat :: y < |m2| && !InScratch(s, heap.cores, y) ==> m2[y] == Direct(en, kernel, a', m1)[y]
    ensures m3[x] == Direct(en, kernel, a, was)[x]
  {
    hide Load, Asked, OutputBytes, Direct;
    var main, place, n := a[OutputSlot(kernel)], a'[OutputSlot(kernel)], OutputBytes(kernel, a);
    DirectAt(en, kernel, a, was, x);
    if main <= x < main + n {
      var y := place + (x - main);
      assert m3[x] == m2[y];
      assert InOutput(kernel, a', y) && !InScratch(s, heap.cores, y) && y < |m2|;
      DirectAt(en, kernel, a', m1, y);
      DirectIs(en, kernel, a', m1, y);
      DirectIs(en, kernel, a, was, x);
    } else {
      assert m3[x] == m2[x];
      assert !InScratch(s, heap.cores, x) && !InOutput(kernel, a', x);
      DirectAt(en, kernel, a', m1, x);
    }
  }

  lemma DirectAt<E>(en: Encoding<E>, kernel: nat, a: Args, m: seq<Byte>, x: nat)
    requires Asked(kernel, a) && x < |m|
    ensures Direct(en, kernel, a, m)[x] == if InOutput(kernel, a, x) then DirectByte(en, kernel, a, m, x) else m[x]
  {
  }

  /** The first n operands have places, all in the heap. */
  ghost predicate Placed(ops: seq<Operand>, cursor: nat, end: nat, n: nat, at: nat, placed: seq<nat>) {
    && n <= |ops| && at == CursorAfter(ops, cursor, n) && |placed| == n
    && forall j :: 0 <= j < n ==> placed[j] == Local(ops, cursor, j) && Local(ops, cursor, j) + ops[j].bytes <= end
  }

  lemma PlaceOne(ops: seq<Operand>, cursor: nat, end: nat, n: nat, at: nat, placed: seq<nat>)
    requires Placed(ops, cursor, end, n, at, placed) && n < |ops|
    ensures AlignUp(at) == Local(ops, cursor, n)
    ensures AlignUp(at) + ops[n].bytes <= end ==>
              Placed(ops, cursor, end, n + 1, AlignUp(at) + ops[n].bytes, placed + [AlignUp(at)])
    ensures AlignUp(at) + ops[n].bytes > end ==> !Fits(ops, cursor, end)
  {
    assert CursorAfter(ops, cursor, n + 1) == Local(ops, cursor, n) + ops[n].bytes;
  }

  /** What the protocol needs to know of this cluster's planning. */
  ghost function AsCluster(heap: Heap, requiresStaging: bool): Offload.Cluster {
    Offload.Cluster(
      heap.cores, requiresStaging,
      (k: nat, a: seq<nat>) => |a| == Offload.MAX_ARGS && PlanScratch(k, a) != 0,
      (k: nat, a: seq<nat>) => if |a| == Offload.MAX_ARGS then ScratchAt(heap, PlanScratch(k, a))
        else Offload.Scratch(0, 0),
      (k: nat, a: seq<nat>) => if |a| == Offload.MAX_ARGS && Asked(k, a) && PlanOperands(k, a) != []
                                  && Fits(PlanOperands(k, a), CursorAt(heap, PlanScratch(k, a)), heap.end)
                               then Some(Moved(PlanOperands(k, a), CursorAt(heap, PlanScratch(k, a)))) else None)
  }

  /** What the control core decides is what the protocol says of such a job. */
  ghost predicate Decided(heap: Heap, requiresStaging: bool, kernel: nat, a: Args, stage: bool,
                          error: nat, staged: bool, k: nat, a': seq<nat>, s: Offload.Scratch)
  {
    var c, d := AsCluster(heap, requiresStaging), Offload.Descriptor(kernel, a, Offload.MAX_ARGS, stage);
    && error == Offload.ErrorOf(c, d) && staged == Offload.Stages(c, d)
    && k == Offload.KernelOf(c, d) && a' == Offload.ArgsOf(c, d) && s == c.scratch(kernel, a)
  }

  ghost predicate StagedIn(heap: Heap, kernel: nat, a: Args, ops: seq<Operand>, local: seq<nat>, was: seq<Byte>,
                           m: seq<Byte>)
    requires Asked(kernel, a)
  {
    var cursor := CursorAt(heap, PlanScratch(kernel, a));
    && ops == PlanOperands(kernel, a) && ops != [] && Fits(ops, cursor, heap.end) && local == Locals(ops, cursor)
    && Copied(ops, cursor, heap.end, a, was, m, |ops|)
  }

  /** The arguments the cores run with. */
  function Active(heap: Heap, kernel: nat, a: Args, staged: bool): Args
    requires Asked(kernel, a)
  {
    var ops, cursor := PlanOperands(kernel, a), CursorAt(heap, PlanScratch(kernel, a));
    if staged then Offload.Rewritten(a, Moved(ops, cursor), |ops|) else a
  }

  lemma DecidedIs(heap: Heap, requiresStaging: bool, kernel: nat, a: Args, stage: bool,
                  error: nat, staged: bool, k: nat, a': seq<nat>, s: Offload.Scratch)
    requires Asked(kernel, a) && Decided(heap, requiresStaging, kernel, a, stage, error, staged, k, a', s)
    ensures s == ScratchAt(heap, PlanScratch(kernel, a)) && a' == Active(heap, kernel, a, staged)
    ensures k == if error == Offload.ERR_NONE then kernel else Offload.K_NONE
    ensures error != Offload.ERR_NONE && staged ==> error == Offload.ERR_NO_SCRATCH && s.base == 0
  {
    hide PlanOperands, Fits, Moved, Offload.Rewritten, ScratchAt, CursorAt, PlanScratch;
  }

  /** The job is to be staged, has operands, and they fit behind the scratch. */
  ghost predicate Stageable(heap: Heap, kernel: nat, a: Args, stage: bool)
    requires Asked(kernel, a)
  {
    && stage && PlanOperands(kernel, a) != []
    && Fits(PlanOperands(kernel, a), CursorAt(heap, PlanScratch(kernel, a)), heap.end)
  }

  /** It needs scratch, and the cores' slabs do not fit. */
  ghost predicate Starved(heap: Heap, kernel: nat, a: Args) {
    PlanScratch(kernel, a) != 0 && AlignUp(heap.start) + AlignUp(PlanScratch(kernel, a)) * heap.cores > heap.end
  }

  /** How a job is decided: refused unstaged where the cores cannot reach main memory, refused without scratch. */
  ghost predicate Ruled(heap: Heap, requiresStaging: bool, kernel: nat, a: Args, stage: bool, error: nat,
                        staged: bool, k: nat)
    requires Asked(kernel, a)
  {
    && staged == Stageable(heap, kernel, a, stage)
    && (error == Offload.ERR_NEEDS_STAGING <==> requiresStaging && !Stageable(heap, kernel, a, stage))
    && (error == Offload.ERR_NO_SCRATCH <==>
          Starved(heap, kernel, a) && !(requiresStaging && !Stageable(heap, kernel, a, stage)))
    && (error == Offload.ERR_NONE <==>
          !Starved(heap, kernel, a) && !(requiresStaging && !Stageable(heap, kernel, a, stage)))
    && k == (if error == Offload.ERR_NONE then kernel else Offload.K_NONE)
  }

  /** Every pointer of the job points into the heap. */
  ghost predicate RunsLocally(heap: Heap, kernel: nat, a: Args, a': seq<nat>)
    requires Asked(kernel, a)
  {
    forall op :: op in PlanOperands(kernel, a) ==>
      op.slot < |a'| && heap.start <= a'[op.slot] && a'[op.slot] + op.bytes <= heap.end
  }

  lemma DecidedMeans(heap: Heap, requiresStaging: bool, kernel: nat, a: Args, stage: bool,
                     error: nat, staged: bool, k: nat, a': seq<nat>, s: Offload.Scratch)
    requires Asked(kernel, a) && 0 < heap.start
    requires Decided(heap, requiresStaging, kernel, a, stage, error, staged, k, a', s)
    ensures Ruled(heap, requiresStaging, kernel, a, stage, error, staged, k)
    ensures staged ==> RunsLocally(heap, kernel, a, a')
  {
    ScratchRefusedIff(heap, PlanScratch(kernel, a));
    DecidedIs(heap, requiresStaging, kernel, a, stage, error, staged, k, a', s);
    hide PlanOperands, Fits, AlignUp, ScratchAt, PlanScratch, CursorAt, Moved, Offload.Rewritten;
    if staged { ActiveIsLocal(heap, kernel, a); }
  }

  lemma RefusedUnstaged(heap: Heap, requiresStaging: bool, kernel: nat, a: Args, stage: bool, error: nat,
                        staged: bool, k: nat)
    requires Asked(kernel, a) && Ruled(heap, requiresStaging, kernel, a, stage, error, staged, k)
    ensures requiresStaging && k != Offload.K_NONE ==> staged
  {
    hide Stageable, Starved;
  }

  lemma ActiveIsLocal(heap: Heap, kernel: nat, a: Args)
    requires Asked(kernel, a) && Stageable(heap, kernel, a, true)
    ensures RunsLocally(heap, kernel, a, Active(heap, kernel, a, true))
  {
    hide PlanOperands, PlanScratch, AlignUp, ScratchAt, Offload.Rewritten, Moved;
    var ops, cursor := PlanOperands(kernel, a), CursorAt(heap, PlanScratch(kernel, a));
    RewrittenAt(a, ops, cursor, |ops|);
    forall op | op in ops
      ensures heap.start <= Active(heap, kernel, a, true)[op.slot] &&
              Active(heap, kernel, a, true)[op.slot] + op.bytes <= heap.end
    {
      var i :| 0 <= i < |ops| && ops[i] == op;
      CursorPast(heap, PlanScratch(kernel, a), ops, i);
    }
  }

  lemma CursorPast(heap: Heap, bytes: nat, ops: seq<Operand>, i: nat)
    requires i < |ops|
    ensures heap.start <= Local(ops, CursorAt(heap, bytes), i)
  {
    MulMono(0, ScratchAt(heap, bytes).stride, heap.cores);
  }

  /** A slot that is no pointer of the job. */
  ghost predicate Scalar(kernel: nat, a: Args, slot: nat)
    requires Asked(kernel, a)
  {
    slot < Offload.MAX_ARGS && forall op :: op in PlanOperands(kernel, a) ==> op.slot != slot
  }

  lemma ScalarsStay(kernel: nat, a: Args)
    requires Asked(kernel, a)
    ensures kernel == K_MATMUL ==> forall s :: s == MM_M || s == MM_O ==> Scalar(kernel, a, s)
    ensures kernel == K_GEMM ==> forall s :: s == GEMM_M || s == GEMM_O || s == GEMM_TRANSA ==> Scalar(kernel, a, s)
    ensures kernel == K_CONV2D ==> forall s :: s == CONV_C || s == CONV_H || s == CONV_W || (CONV_F <= s <= CONV_SQ) ==>
              Scalar(kernel, a, s)
    ensures kernel == K_MFCC ==> forall s :: s == MFCC_NB_FRAMES || s == MFCC_NB_CEP ==> Scalar(kernel, a, s)
  {
  }

  lemma ExtentsSame(kernel: nat, a: Args, a': Args)
    requires Asked(kernel, a) && Asked(kernel, a') && forall s: nat :: Scalar(kernel, a, s) ==> a'[s] == a[s]
    ensures JobUnits(kernel, a') == JobUnits(kernel, a) && UnitBytes(kernel, a') == UnitBytes(kernel, a)
    ensures kernel == K_GEMM ==> a'[GEMM_TRANSA] == a[GEMM_TRANSA] && a'[GEMM_M] == a[GEMM_M]
  {
    ScalarsStay(kernel, a);
    hide Scalar, PlanOperands, Asked;
    if kernel == K_CONV2D { assert ConvOf(a') == ConvOf(a); }
  }

  /** The shares of a job are the same wherever its operands lie. */
  lemma SharesSame(kernel: nat, a: Args, m: seq<Byte>, a': Args, m': seq<Byte>, cores: nat, schedule: seq<Store>)
    requires Asked(kernel, a) && Asked(kernel, a') && SameInputs(kernel, a, m, a', m') && cores > 0 &&
             Complete(kernel, a, cores, schedule)
    ensures Complete(kernel, a', cores, schedule)
  {
    assert forall s: nat :: Scalar(kernel, a, s) ==> a'[s] == a[s];
    hide SameInputs, PlanOperands, JobUnits, UnitBytes, SliceStart, Asked, Scalar;
    ExtentsSame(kernel, a, a');
    forall core: nat, at: nat | at < ShareBytes(kernel, a', core, cores) ensures Result(core, at) in schedule {
      ShareSame(kernel, a, a', core, cores);
    }
  }

  lemma ShareSame(kernel: nat, a: Args, a': Args, core: nat, cores: nat)
    requires Asked(kernel, a) && Asked(kernel, a') && cores > 0
    requires JobUnits(kernel, a') == JobUnits(kernel, a) && UnitBytes(kernel, a') == UnitBytes(kernel, a)
    requires kernel == K_GEMM ==> a'[GEMM_TRANSA] == a[GEMM_TRANSA] && a'[GEMM_M] == a[GEMM_M]
    ensures ShareBytes(kernel, a', core, cores) == ShareBytes(kernel, a, core, cores)
  {
    hide JobUnits, UnitBytes, SliceStart, Asked;
  }

  lemma ReadyToRun<E>(en: Encoding<E>, heap: Heap, kernel: nat, a: Args, accepted: bool, staged: bool, a': Args,
                      s: Offload.Scratch,
                      ops: seq<Operand>, local: seq<nat>, was: seq<Byte>, m1: seq<Byte>, schedule: seq<Store>)
    requires heap.start <= heap.end <= |was| && heap.cores > 0 && InMain(kernel, a, heap, |was|) &&
             Complete(kernel, a, heap.cores, schedule)
    requires s == ScratchAt(heap, PlanScratch(kernel, a)) && a' == Active(heap, kernel, a, staged)
    requires if staged then StagedIn(heap, kernel, a, ops, local, was, m1) else m1 == was
    ensures var k := if accepted then kernel else Offload.K_NONE;
            Ready(k, a', s, heap.cores, |m1|) && Complete(k, a', heap.cores, schedule)
  {
    ScratchBelow(heap, PlanScratch(kernel, a));
    assert |m1| == |was|;
    if !accepted {
      hide *;
      assert Offload.K_NONE == 0;
      NothingRuns(en, a', s, heap.cores, schedule, m1);
    } else if staged {
      hide Ready, Complete, InMain, PlanOperands, CursorAt, ScratchAt, PlanScratch, Load, SameInputs;
      StagedRun(en, kernel, a, heap, was, m1);
      SharesSame(kernel, a, was, a', m1, heap.cores, schedule);
    } else {
      hide Ready, Complete, InMain, PlanOperands, CursorAt, ScratchAt, PlanScratch;
      UnstagedReady(kernel, a, heap, |was|);
    }
  }

  lemma StageOutReady(heap: Heap, kernel: nat, a: Args, ops: seq<Operand>, local: seq<nat>, was: seq<Byte>,
                      m1: seq<Byte>)
    requires heap.start <= heap.end <= |was| && InMain(kernel, a, heap, |was|) &&
             StagedIn(heap, kernel, a, ops, local, was, m1)
    ensures |local| == |ops|
    ensures forall i :: 0 <= i < |ops| ==>
      && ops[i].slot < |a| && a[ops[i].slot] + ops[i].bytes <= |was| && local[i] + ops[i].bytes <= |was|
      && Disjoint(a[ops[i].slot], ops[i].bytes, local[i], ops[i].bytes)
    ensures forall i, j :: 0 <= i < j < |ops| ==> !ops[i].output || !ops[j].output
  {
    PlannedOutput(kernel, a);
    ScratchBelow(heap, PlanScratch(kernel, a));
    hide PlanOperands, CursorAt, ScratchAt, PlanScratch, OutputBytes, Copied;
    forall i | 0 <= i < |ops|
      ensures a[ops[i].slot] + ops[i].bytes <= |was| && local[i] + ops[i].bytes <= |was| &&
              Disjoint(a[ops[i].slot], ops[i].bytes, local[i], ops[i].bytes)
    {
      assert ops[i] in PlanOperands(kernel, a);
    }
  }

  ghost predicate Returned(a: Args, ops: seq<Operand>, local: seq<nat>, m2: seq<Byte>, m3: seq<Byte>) {
    |m3| == |m2| && |local| == |ops| && forall i :: 0 <= i < |ops| && ops[i].output ==>
      && ops[i].slot < |a| && a[ops[i].slot] + ops[i].bytes <= |m2| && local[i] + ops[i].bytes <= |m2|
      && IsCopy(m2, m3, a[ops[i].slot], local[i], ops[i].bytes)
  }

  /**
    Main memory when a job is over: as after one direct call, if it was accepted. A refused job
    leaves it untouched, except that one refused for want of scratch after its operands were staged
    still copies out what the heap held where its result would have been.
   */
  ghost function MainAfter<E>(en: Encoding<E>, kernel: nat, a: Args, accepted: bool, staged: bool, a': Args,
                              was: seq<Byte>, x: nat): Byte
    requires Asked(kernel, a) && x < |was|
  {
    if accepted then Direct(en, kernel, a, was)[x]
    else if staged && InOutput(kernel, a, x) then At(was, a'[OutputSlot(kernel)] + (x - a[OutputSlot(kernel)]))
    else was[x]
  }

  lemma Served<E>(en: Encoding<E>, heap: Heap, kernel: nat, a: Args, accepted: bool, staged: bool, a': Args,
                  s: Offload.Scratch,
                  ops: seq<Operand>, local: seq<nat>, was: seq<Byte>, m1: seq<Byte>, m2: seq<Byte>, m3: seq<Byte>)
    requires 0 < heap.start <= heap.end <= |was| == |m2| == |m3| && heap.cores > 0 && InMain(kernel, a, heap, |was|)
    requires s == ScratchAt(heap, PlanScratch(kernel, a)) && a' == Active(heap, kernel, a, staged) &&
             (!accepted && staged ==> s.base == 0)
    requires if staged then StagedIn(heap, kernel, a, ops, local, was, m1) else m1 == was
    requires var k := if accepted then kernel else Offload.K_NONE;
             Asked(k, a') && forall x: nat :: x < |m2| && !InScratch(s, heap.cores, x) ==>
               m2[x] == Direct(en, k, a', m1)[x]
    requires if staged then Returned(a, ops, local, m2, m3) else m3 == m2
    ensures forall x: nat :: x < |was| && !(heap.start <= x < heap.end) ==>
              m3[x] == MainAfter(en, kernel, a, accepted, staged, a', was, x)
  {
    ScratchBelow(heap, PlanScratch(kernel, a));
    forall x: nat | x < |was| && !(heap.start <= x < heap.end)
      ensures m3[x] == MainAfter(en, kernel, a, accepted, staged, a', was, x) {
      hide PlanOperands, CursorAt, ScratchAt, PlanScratch, Load, Direct, Copied, Active, Asked, Moved, Fits, DirectByte;
      assert !InScratch(s, heap.cores, x);
      if staged {
        if accepted { ServedStaged(en, heap, kernel, a, a', s, ops, local, was, m1, m2, m3, x); }
        else { ServedJunk(en, heap, kernel, a, a', s, ops, local, was, m1, m2, m3, x); }
      } else if !accepted {
        DirectAt(en, Offload.K_NONE, a', m1, x);
      }
    }
  }

  lemma OutputIndex(kernel: nat, a: Args) returns (out: nat)
    requires Asked(kernel, a) && PlanOperands(kernel, a) != []
    ensures out < |PlanOperands(kernel, a)| &&
            PlanOperands(kernel, a)[out] == Operand(OutputSlot(kernel), true, OutputBytes(kernel, a))
  {
    PlannedOutput(kernel, a);
    hide PlanOperands;
    out :| 0 <= out < |PlanOperands(kernel, a)| &&
      PlanOperands(kernel, a)[out] == Operand(OutputSlot(kernel), true, OutputBytes(kernel, a));
  }

  /** The result's copy: where it is, what it held, and that nothing outside the heap moved while staging. */
  lemma ResultPlace<E>(en: Encoding<E>, heap: Heap, kernel: nat, a: Args, ops: seq<Operand>, local: seq<nat>,
                       was: seq<Byte>, m1: seq<Byte>, x: nat)
    returns (out: nat)
    requires heap.start <= heap.end <= |was| && InMain(kernel, a, heap, |was|) &&
             StagedIn(heap, kernel, a, ops, local, was, m1)
    requires x < |was| && !(heap.start <= x < heap.end)
    ensures var place, n := Active(heap, kernel, a, true)[OutputSlot(kernel)], OutputBytes(kernel, a);
            && out < |ops| == |local| && ops[out] == Operand(OutputSlot(kernel), true, n) && local[out] == place
            && CursorAt(heap, PlanScratch(kernel, a)) <= place && place + n <= heap.end &&
               a[OutputSlot(kernel)] + n <= |was|
            && SameBytes(was, place, m1, place, n) && |m1| == |was| && m1[x] == was[x]
    ensures var a' := Active(heap, kernel, a, true);
            && Asked(kernel, a') && Load(en, kernel, a', m1) == Load(en, kernel, a, was) &&
               OutputBytes(kernel, a') == OutputBytes(kernel, a)
  {
    out := OutputIndex(kernel, a);
    StagedRun(en, kernel, a, heap, was, m1);
    ScratchBelow(heap, PlanScratch(kernel, a));
    hide PlanOperands, CursorAt, ScratchAt, PlanScratch, Load, Asked, Moved, OutputBytes, SameInputs, SameBytes, Ready,
         Offload.Rewritten, Local;
    assert ops[out] in ops;
  }

  lemma ServedStaged<E>(en: Encoding<E>, heap: Heap, kernel: nat, a: Args, a': Args, s: Offload.Scratch,
                        ops: seq<Operand>, local: seq<nat>, was: seq<Byte>, m1: seq<Byte>, m2: seq<Byte>, m3: seq<Byte>,
                          x: nat)
    requires heap.start <= heap.end <= |was| == |m2| == |m3| && InMain(kernel, a, heap, |was|) && x < |was| &&
             !(heap.start <= x < heap.end)
    requires s == ScratchAt(heap, PlanScratch(kernel, a)) && a' == Active(heap, kernel, a, true) &&
             StagedIn(heap, kernel, a, ops, local, was, m1)
    requires Asked(kernel, a') && forall y: nat :: y < |m2| && !InScratch(s, heap.cores, y) ==>
               m2[y] == Direct(en, kernel, a', m1)[y]
    requires Returned(a, ops, local, m2, m3)
    ensures m3[x] == Direct(en, kernel, a, was)[x]
  {
    var out := ResultPlace(en, heap, kernel, a, ops, local, was, m1, x);
    ScratchBelow(heap, PlanScratch(kernel, a));
    ReturnedAt(a, ops, local, m2, m3, out);
    hide *;
    CopiedBack(en, kernel, a, a', s, heap, was, m1, m2, m3, x);
  }

  lemma ReturnedAt(a: Args, ops: seq<Operand>, local: seq<nat>, m2: seq<Byte>, m3: seq<Byte>, out: nat)
    requires Returned(a, ops, local, m2, m3) && out < |ops| && ops[out].output
    ensures |m3| == |m2| && |local| == |ops| && ops[out].slot < |a| && a[ops[out].slot] + ops[out].bytes <= |m2|
    ensures local[out] + ops[out].bytes <= |m2| && IsCopy(m2, m3, a[ops[out].slot], local[out], ops[out].bytes)
  {
  }

  lemma ServedJunk<E>(en: Encoding<E>, heap: Heap, kernel: nat, a: Args, a': Args, s: Offload.Scratch,
                      ops: seq<Operand>, local: seq<nat>, was: seq<Byte>, m1: seq<Byte>, m2: seq<Byte>, m3: seq<Byte>,
                        x: nat)
    requires heap.start <= heap.end <= |was| == |m2| == |m3| && heap.cores > 0 && InMain(kernel, a, heap, |was|)
    requires x < |was| && !(heap.start <= x < heap.end)
    requires s.base == 0 && a' == Active(heap, kernel, a, true) && StagedIn(heap, kernel, a, ops, local, was, m1)
    requires Asked(Offload.K_NONE, a') && forall y: nat :: y < |m2| && !InScratch(s, heap.cores, y) ==>
               m2[y] == Direct(en, Offload.K_NONE, a', m1)[y]
    requires Returned(a, ops, local, m2, m3)
    ensures m3[x] == MainAfter(en, kernel, a, false, true, a', was, x)
  {
    var out := ResultPlace(en, heap, kernel, a, ops, local, was, m1, x);
    ReturnedAt(a, ops, local, m2, m3, out);
    hide *;
    NothingRan(en, a', s, heap.cores, m1, m2);
    JunkBack(en, kernel, a, a', was, m1, m3, x);
  }

  lemma NothingRan<E>(en: Encoding<E>, a': Args, s: Offload.Scratch, cores: nat, m1: seq<Byte>, m2: seq<Byte>)
    requires s.base == 0 && cores > 0 && |m1| == |m2| && Asked(Offload.K_NONE, a')
    requires forall y: nat :: y < |m2| && !InScratch(s, cores, y) ==> m2[y] == Direct(en, Offload.K_NONE, a', m1)[y]
    ensures m2 == m1
  {
    NothingRuns(en, a', s, cores, [], m1);
    hide Direct;
  }

  lemma JunkBack<E>(en: Encoding<E>, kernel: nat, a: Args, a': Args, was: seq<Byte>, m1: seq<Byte>, m3: seq<Byte>,
                    x: nat)
    requires Asked(kernel, a) && |was| == |m1| == |m3| && x < |was| && m1[x] == was[x]
    requires var main, place, n := a[OutputSlot(kernel)], a'[OutputSlot(kernel)], OutputBytes(kernel, a);
             main + n <= |was| && place + n <= |was| && SameBytes(was, place, m1, place, n) &&
               IsCopy(m1, m3, main, place, n)
    ensures m3[x] == MainAfter(en, kernel, a, false, true, a', was, x)
  {
    var main, place := a[OutputSlot(kernel)], a'[OutputSlot(kernel)];
    hide OutputBytes, OutputSlot, Asked;
    if InOutput(kernel, a, x) {
      assert AtOffset(was, place, x - main) == AtOffset(m1, place, x - main);
      assert m3[x] == m1[place + (x - main)];
    }
  }

  /** A cluster's control core and the variables it shares with the compute cores. */
  class Cluster<E(!new)> {
    const en: Encoding<E>
    const heap: Heap
    const requiresStaging: bool
    const mem: array<Byte>
    var activeKernel: nat
    var activeArgs: Args
    var scratch: Offload.Scratch
    var ops: seq<Operand>
    var local: seq<nat>

    ghost predicate Valid()
      reads this
    {
      0 < heap.start <= heap.end <= mem.Length && heap.cores > 0
    }

    constructor (en: Encoding<E>, heap: Heap, requiresStaging: bool, mem: array<Byte>)
      requires 0 < heap.start <= heap.end <= mem.Length && heap.cores > 0
      ensures Valid() && this.en == en && this.heap == heap && this.requiresStaging == requiresStaging &&
              this.mem == mem
    {
      this.en, this.heap, this.requiresStaging, this.mem := en, heap, requiresStaging, mem;
      activeKernel, activeArgs := Offload.K_NONE, seq(Offload.MAX_ARGS, _ => 0);
      scratch, ops, local := Offload.Scratch(0, 0), [], [];
    }

    /** `slice`. */
    method Slice(n: nat, idx: nat, nb: nat) returns (first: nat, last: nat)
      requires idx < nb
      ensures first == SliceStart(n, idx, nb) && last == SliceStart(n, idx + 1, nb)
    {
      DivNonNegative(n, nb);
      Distribute(idx, 1, n / nb);
      var base, rem := n / nb, n % nb;
      MulMono(0, idx, base);
      first := idx * base + (if idx < rem then idx else rem);
      last := first + base + (if idx < rem then 1 else 0);
    }

    /** `reserve_scratch`. */
    method ReserveScratch(kernel: nat, a: Args) returns (cursor: nat)
      requires Valid()
      modifies this`scratch
      ensures scratch == ScratchAt(heap, PlanScratch(kernel, a)) && cursor == CursorAt(heap, PlanScratch(kernel, a))
    {
      cursor := AlignUp(heap.start);
      var perCore := PlanScratch(kernel, a);
      scratch := Offload.Scratch(0, 0);
      if perCore == 0 { return; }
      perCore := AlignUp(perCore);
      MulMono(0, perCore, heap.cores);
      if cursor + perCore * heap.cores > heap.end { return; }
      scratch := Offload.Scratch(cursor, perCore);
      cursor := cursor + perCore * heap.cores;
    }

    /** `hes_dma_copy`. */
    method DmaCopy(dst: nat, src: nat, n: nat)
      requires dst + n <= mem.Length && src + n <= mem.Length && Disjoint(dst, n, src, n)
      modifies mem
      ensures IsCopy(old(mem[..]), mem[..], dst, src, n)
    {
      for i := 0 to n
        invariant forall x: nat :: dst <= x < dst + i ==> mem[x] == old(mem[src + (x - dst)])
        invariant forall x: nat :: x < mem.Length && !(dst <= x < dst + i) ==> mem[x] == old(mem[x])
      {
        mem[dst + i] := mem[src + i];
      }
    }

    /** The compute cores, between the barriers, in the order the schedule says. */
    method RunCores(schedule: seq<Store>)
      requires Valid() && Ready(activeKernel, activeArgs, scratch, heap.cores, mem.Length)
      modifies mem
      ensures Complete(activeKernel, activeArgs, heap.cores, schedule) ==>
                forall x: nat :: x < mem.Length && !InScratch(scratch, heap.cores, x) ==>
                  mem[x] == Direct(en, activeKernel, activeArgs, old(mem[..]))[x]
    {
      ghost var was := mem[..];
      for t := 0 to |schedule|
        invariant Partial(en, activeKernel, activeArgs, scratch, heap.cores, was, mem[..])
        invariant Landed(en, activeKernel, activeArgs, heap.cores, was, mem[..], schedule[..t])
      {
        assert schedule[..t + 1] == schedule[..t] + [schedule[t]];
        Perform(schedule[t], was, schedule[..t]);
      }
      assert schedule[..|schedule|] == schedule;
      if Complete(activeKernel, activeArgs, heap.cores, schedule) {
        AllLanded(en, activeKernel, activeArgs, scratch, heap.cores, was, mem[..], schedule);
      }
    }

    /** One store of a core: of its share of the result (`run_slice`), or of its scratch. */
    method Perform(store: Store, ghost was: seq<Byte>, ghost done: seq<Store>)
      requires Valid() && Ready(activeKernel, activeArgs, scratch, heap.cores, |was|)
      requires Partial(en, activeKernel, activeArgs, scratch, heap.cores, was, mem[..])
      requires Landed(en, activeKernel, activeArgs, heap.cores, was, mem[..], done)
      modifies mem
      ensures Partial(en, activeKernel, activeArgs, scratch, heap.cores, was, mem[..])
      ensures Landed(en, activeKernel, activeArgs, heap.cores, was, mem[..], done + [store])
    {
      assert Asked(activeKernel, activeArgs);
      hide Asked, Direct, LandedAt, Disjoint, PlanOperands, InScratch, ShareBytes, UnitBytes, JobUnits, OutputBytes,
           Load, Stored;
      ghost var before := mem[..];
      match store
      case Result(core, at) =>
        if at < ShareBytes(activeKernel, activeArgs, core, heap.cores) {
          StoreResult(en, activeKernel, activeArgs, scratch, heap.cores, was, before, done, core, at);
          var sl := Mine(activeKernel, activeArgs, core, heap.cores);
          var x, v := sl[OutputSlot(activeKernel)] + at, Stored(en, Load(en, activeKernel, sl, mem[..]), at);
          mem[x] := v;
          assert mem[..] == before[x := v];
        }
      case Scribble(core, at, v) =>
        if scratch.base != 0 && core < heap.cores && at < scratch.stride {
          StoreScratch(en, activeKernel, activeArgs, scratch, heap.cores, was, before, done, core, at, v);
          var x := Slab(scratch, core) + at;
          mem[x] := v;
          assert mem[..] == before[x := v];
        }
    }

    /** `stage_in`: everything is placed first, and only if it fits is anything copied. */
    method StageIn(kernel: nat, a: Args, cursor: nat) returns (ok: bool)
      requires Valid() && InMain(kernel, a, heap, mem.Length) && heap.start <= cursor && activeArgs == a
      modifies this`ops, this`local, this`activeArgs, mem
      ensures ops == PlanOperands(kernel, a)
      ensures ok <==> ops != [] && Fits(ops, cursor, heap.end)
      ensures !ok ==> mem[..] == old(mem[..]) && activeArgs == a
      ensures ok ==>
        && local == Locals(ops, cursor) && activeArgs == Offload.Rewritten(a, Moved(ops, cursor), |ops|)
        && Copied(ops, cursor, heap.end, a, old(mem[..]), mem[..], |ops|)
    {
      ops := PlanOperands(kernel, a);
      ok := ops != [];
      if ok { ok := PlaceAll(cursor); }
      if ok {
        hide PlanOperands, Fits, Copied, Locals, OutputBytes, Moved;
        CopyAll(kernel, a, cursor);
      }
    }

    method PlaceAll(cursor: nat) returns (ok: bool)
      modifies this`local
      ensures ok <==> Fits(ops, cursor, heap.end)
      ensures ok ==> local == Locals(ops, cursor)
    {
      var at: nat, placed: seq<nat> := cursor, [];
      assert Placed(ops, cursor, heap.end, 0, at, placed);
      for i := 0 to |ops|
        modifies {}
        invariant Placed(ops, cursor, heap.end, i, at, placed)
      {
        PlaceOne(ops, cursor, heap.end, i, at, placed);
        at := AlignUp(at);
        if at + ops[i].bytes > heap.end { return false; }
        placed := placed + [at];
        at := at + ops[i].bytes;
      }
      local := placed;
      ok := true;
    }

    method CopyAll(ghost kernel: nat, a: Args, ghost cursor: nat)
      requires Valid() && InMain(kernel, a, heap, mem.Length) && heap.start <= cursor && activeArgs == a
      requires ops == PlanOperands(kernel, a) && local == Locals(ops, cursor) && Fits(ops, cursor, heap.end)
      modifies this`activeArgs, mem
      ensures activeArgs == Offload.Rewritten(a, Moved(ops, cursor), |ops|)
      ensures Copied(ops, cursor, heap.end, a, old(mem[..]), mem[..], |ops|)
    {
      hide PlanOperands, Fits, Copied, OutputBytes, Local;
      ghost var was := mem[..];
      assert Copied(ops, cursor, heap.end, a, was, was, 0) by { NothingCopied(ops, cursor, heap.end, a, was); }
      for i := 0 to |ops|
        modifies this`activeArgs, mem
        invariant activeArgs == Offload.Rewritten(a, Moved(ops, cursor), i)
        invariant Copied(ops, cursor, heap.end, a, was, mem[..], i)
      {
        assert ops[i] in ops;
        if !ops[i].output { CopyIn(a, cursor, i, was); } else { SkipOne(ops, cursor, heap.end, a, was, mem[..], i); }
        activeArgs := activeArgs[ops[i].slot := local[i]];
      }
    }

    /** One operand into its place. */
    method CopyIn(a: Args, ghost cursor: nat, i: nat, ghost was: seq<Byte>)
      requires Valid() && i < |ops| && local == Locals(ops, cursor) && Fits(ops, cursor, heap.end) &&
               heap.start <= cursor
      requires (forall op :: op in ops ==> op.slot < |a|) && !ops[i].output
      requires a[ops[i].slot] + ops[i].bytes <= mem.Length &&
               Disjoint(a[ops[i].slot], ops[i].bytes, heap.start, heap.end - heap.start)
      requires Copied(ops, cursor, heap.end, a, was, mem[..], i)
      modifies mem
      ensures Copied(ops, cursor, heap.end, a, was, mem[..], i + 1)
    {
      ghost var m := mem[..];
      assert local[i] == Local(ops, cursor, i) && |was| == |m|;
      DmaCopy(local[i], a[ops[i].slot], ops[i].bytes);
      hide Copied, Locals, IsCopy;
      CopyOne(ops, cursor, heap.end, a, was, m, mem[..], i);
    }

    /** `stage_out`: the results, to where the mailbox's arguments say. */
    method StageOut(a: Args)
      requires Valid() && |local| == |ops|
      requires forall i :: 0 <= i < |ops| ==>
        && ops[i].slot < |a| && a[ops[i].slot] + ops[i].bytes <= mem.Length && local[i] + ops[i].bytes <= mem.Length
        && Disjoint(a[ops[i].slot], ops[i].bytes, local[i], ops[i].bytes)
      requires forall i, j :: 0 <= i < j < |ops| ==> !ops[i].output || !ops[j].output
      modifies mem
      ensures forall i :: 0 <= i < |ops| && ops[i].output ==>
                IsCopy(old(mem[..]), mem[..], a[ops[i].slot], local[i], ops[i].bytes)
    {
      ghost var was := mem[..];
      for i := 0 to |ops|
        invariant (forall j :: 0 <= j < i ==> !ops[j].output) ==> mem[..] == was
        invariant forall j :: 0 <= j < i && ops[j].output ==>
                    IsCopy(was, mem[..], a[ops[j].slot], local[j], ops[j].bytes)
      {
        if ops[i].output { DmaCopy(a[ops[i].slot], local[i], ops[i].bytes); }
      }
    }

    /** The control core's part before the barrier: scratch, staging, and whether the job is refused. */
    method Prepare(kernel: nat, a: Args, stage: bool) returns (error: nat, staged: bool)
      requires Valid() && InMain(kernel, a, heap, mem.Length)
      modifies this, mem
      ensures Decided(heap, requiresStaging, kernel, a, stage, error, staged, activeKernel, activeArgs, scratch)
      ensures if staged then StagedIn(heap, kernel, a, ops, local, old(mem[..]), mem[..]) else mem[..] == old(mem[..])
    {
      hide PlanOperands, Fits, Copied, Locals, Moved, Local, ScratchAt, CursorAt, Offload.Rewritten;
      activeKernel, activeArgs, staged, ops := kernel, a, false, [];
      ScratchBelow(heap, PlanScratch(kernel, a));
      var cursor := ReserveScratch(kernel, a);
      if stage { staged := StageIn(kernel, a, cursor); }
      if requiresStaging && !staged {
        error := Offload.ERR_NEEDS_STAGING;
        activeKernel := Offload.K_NONE;
      } else if PlanScratch(kernel, a) != 0 && scratch.base == 0 {
        error := Offload.ERR_NO_SCRATCH;
        activeKernel := Offload.K_NONE;
      } else {
        error := Offload.ERR_NONE;
      }
    }

    /**
      A job, from descriptor to result, with any number of compute cores and any order of their
      stores. Outside the heap memory is as after one direct call of the kernel -- if the job is
      not refused. A refused job leaves it untouched, except that one refused for want of scratch
      after its operands were staged still copies out: what the heap held where its result would be.
      Where kernels reach the heap only, none runs with a pointer out of it.
     */
    method Serve(kernel: nat, a: Args, stage: bool, schedule: seq<Store>) returns (error: nat, staged: bool)
      requires Valid() && InMain(kernel, a, heap, mem.Length) && Complete(kernel, a, heap.cores, schedule)
      modifies this, mem
      ensures Decided(heap, requiresStaging, kernel, a, stage, error, staged, activeKernel, activeArgs, scratch)
      ensures Ruled(heap, requiresStaging, kernel, a, stage, error, staged, activeKernel)
      ensures staged ==> RunsLocally(heap, kernel, a, activeArgs)
      ensures requiresStaging && activeKernel != Offload.K_NONE ==> RunsLocally(heap, kernel, a, activeArgs)
      ensures forall x: nat :: x < mem.Length && !(heap.start <= x < heap.end) ==>
                mem[x] == MainAfter(en, kernel, a, error == Offload.ERR_NONE, staged, activeArgs, old(mem[..]), x)
    {
      ghost var was := mem[..];
      error, staged := Prepare(kernel, a, stage);
      DecidedIs(heap, requiresStaging, kernel, a, stage, error, staged, activeKernel, activeArgs, scratch);
      DecidedMeans(heap, requiresStaging, kernel, a, stage, error, staged, activeKernel, activeArgs, scratch);
      RefusedUnstaged(heap, requiresStaging, kernel, a, stage, error, staged, activeKernel);
      hide *;
      RunAndReturn(kernel, a, error == Offload.ERR_NONE, staged, schedule, was);
    }

    /** From the barrier that releases the compute cores to the results copied out. */
    method RunAndReturn(ghost kernel: nat, a: Args, ghost accepted: bool, staged: bool, schedule: seq<Store>,
                        ghost was: seq<Byte>)
      requires Valid() && |was| == mem.Length && InMain(kernel, a, heap, |was|) &&
               Complete(kernel, a, heap.cores, schedule)
      requires activeKernel == (if accepted then kernel else Offload.K_NONE) &&
               activeArgs == Active(heap, kernel, a, staged)
      requires scratch == ScratchAt(heap, PlanScratch(kernel, a)) && (!accepted && staged ==> scratch.base == 0)
      requires if staged then StagedIn(heap, kernel, a, ops, local, was, mem[..]) else mem[..] == was
      modifies mem
      ensures forall x: nat :: x < mem.Length && !(heap.start <= x < heap.end) ==>
                mem[x] == MainAfter(en, kernel, a, accepted, staged, activeArgs, was, x)
    {
      ghost var m1 := mem[..];
      assert heap.start <= heap.end <= |was| && 0 < heap.start && heap.cores > 0;
      hide *;
      ReadyToRun(en, heap, kernel, a, accepted, staged, activeArgs, scratch, ops, local, was, m1, schedule);
      RunCores(schedule);
      ghost var m2 := mem[..];
      if staged { Return(kernel, a, was, m1); }
      Served(en, heap, kernel, a, accepted, staged, activeArgs, scratch, ops, local, was, m1, m2, mem[..]);
    }

    method Return(ghost kernel: nat, a: Args, ghost was: seq<Byte>, ghost m1: seq<Byte>)
      requires Valid() && |was| == mem.Length && InMain(kernel, a, heap, |was|) &&
               StagedIn(heap, kernel, a, ops, local, was, m1)
      modifies mem
      ensures Returned(a, ops, local, old(mem[..]), mem[..])
    {
      assert heap.start <= heap.end;
      hide StagedIn, InMain, IsCopy, Disjoint;
      StageOutReady(heap, kernel, a, ops, local, was, m1);
      StageOut(a);
    }
  }

  /* ---- When a job is refused ---- */

  /**
    Exactly when a job that was staged is refused for want of scratch, by what can be checked before
    it is posted: it is to be staged, it needs scratch, the slabs do not fit, its operands alone do.
   */
  lemma RefusedYetStagedIff(heap: Heap, requiresStaging: bool, kernel: nat, a: Args, stage: bool)
    requires Asked(kernel, a) && 0 < heap.start
    ensures var c, d := AsCluster(heap, requiresStaging), Offload.Descriptor(kernel, a, Offload.MAX_ARGS, stage);
            Offload.Stages(c, d) && Offload.ErrorOf(c, d) == Offload.ERR_NO_SCRATCH <==>
            && stage && PlanScratch(kernel, a) != 0 &&
               AlignUp(heap.start) + AlignUp(PlanScratch(kernel, a)) * heap.cores > heap.end
            && Fits(PlanOperands(kernel, a), AlignUp(heap.start), heap.end)
  {
    var c, d := AsCluster(heap, requiresStaging), Offload.Descriptor(kernel, a, Offload.MAX_ARGS, stage);
    assert PlanScratch(kernel, a) != 0 ==> PlanOperands(kernel, a) != [];
    ScratchRefusedIff(heap, PlanScratch(kernel, a));
    hide PlanOperands, Fits, AlignUp, ScratchAt, PlanScratch, CursorAt, Moved;
  }

  lemma ScratchRefusedIff(heap: Heap, bytes: nat)
    requires 0 < heap.start
    ensures bytes != 0 && ScratchAt(heap, bytes).base == 0 <==>
            bytes != 0 && AlignUp(heap.start) + AlignUp(bytes) * heap.cores > heap.end
    ensures ScratchAt(heap, bytes).base == 0 ==> CursorAt(heap, bytes) == AlignUp(heap.start)
  {
    MulMono(0, 0, heap.cores);
  }

  /** A heap of 960 bytes and eight cores; main memory above it. */
  const SMALL: Heap := Heap(64, 1024, 8)

  /** A front-end job of one frame, transform length 64, its operands 4096 bytes apart. */
  const ONE_FRAME: Args := [4096, 8192, 1, 1, 1, 64, 12288, 16384, 20480, 24576, 28672, 1, 32768, 1, 1, 0]

  lemma OneFrameFits()
    ensures Asked(K_MFCC, ONE_FRAME) && |PlanOperands(K_MFCC, ONE_FRAME)| == 8 &&
            Fits(PlanOperands(K_MFCC, ONE_FRAME), 64, 1024)
  {
    var ops := PlanOperands(K_MFCC, ONE_FRAME);
    OneFrameOperands();
    hide PlanOperands, Asked;
    assert CursorAfter(ops, 64, 1) == 68;
    assert CursorAfter(ops, 64, 2) == 132;
    assert CursorAfter(ops, 64, 3) == 196;
    assert CursorAfter(ops, 64, 4) == 512;
    assert CursorAfter(ops, 64, 5) == 516;
    assert CursorAfter(ops, 64, 6) == 578;
    assert CursorAfter(ops, 64, 7) == 642;
    assert CursorAfter(ops, 64, 8) == 708;
    FitsIff(ops, 64, 1024);
  }

  /** It needs 516 bytes a core, 576 with the line filled: eight of them do not fit. */
  lemma OneFrameScratch()
    ensures PlanScratch(K_MFCC, ONE_FRAME) == 516 && AlignUp(516) == 576 && AlignUp(64) == 64
    ensures ScratchAt(SMALL, 516).base == 0 && CursorAt(SMALL, 516) == 64
  {
  }

  lemma OneFrameOperands()
    ensures Asked(K_MFCC, ONE_FRAME) && OutputBytes(K_MFCC, ONE_FRAME) == 4
    ensures PlanOperands(K_MFCC, ONE_FRAME) ==
            [Operand(0, false, 4), Operand(1, true, 4), Operand(6, false, 4), Operand(7, false, 256),
             Operand(8, false, 4), Operand(9, false, 2), Operand(10, false, 2), Operand(12, false, 4)]
  {
  }

  lemma OneFrameInMain(size: nat)
    requires 40960 <= size
    ensures SMALL.start <= SMALL.end && InMain(K_MFCC, ONE_FRAME, SMALL, size)
  {
    OneFrameOperands();
    hide PlanOperands, OutputBytes, UnitBytes, JobUnits;
  }

  /** Where its result's copy would be. */
  lemma OneFramePlace()
    ensures Asked(K_MFCC, ONE_FRAME) && Active(SMALL, K_MFCC, ONE_FRAME, true)[MFCC_OUT] + 4 <= 1024
  {
    OneFrameScratch();
    OneFrameFits();
    var ops := PlanOperands(K_MFCC, ONE_FRAME);
    assert ops[1] == Operand(MFCC_OUT, true, 4);
    hide PlanOperands, PlanScratch, CursorAt, Offload.Rewritten, Moved, Local;
    RewrittenAt(ONE_FRAME, ops, 64, |ops|);
    assert Local(ops, 64, 1) + ops[1].bytes <= 1024;
  }

  /** It is in main memory as jobs must be, staged, and refused. */
  lemma OneFrameRefused(size: nat)
    requires 40960 <= size
    ensures InMain(K_MFCC, ONE_FRAME, SMALL, size)
    ensures var c, d := AsCluster(SMALL, true), Offload.Descriptor(K_MFCC, ONE_FRAME, Offload.MAX_ARGS, true);
            Offload.Stages(c, d) && Offload.ErrorOf(c, d) == Offload.ERR_NO_SCRATCH
  {
    OneFrameScratch();
    OneFrameFits();
    OneFrameInMain(size);
    hide PlanOperands, PlanScratch, CursorAt, Fits, AsCluster, Offload.Stages, Offload.ErrorOf, InMain;
    RefusedYetStagedIff(SMALL, true, K_MFCC, ONE_FRAME, true);
  }

  /** And its output is overwritten with what the heap happened to hold. */
  lemma RefusedJobOverwrites<E>(en: Encoding<E>, was: seq<Byte>)
    requires |was| == 40960 && forall i :: 0 <= i < |was| ==> was[i] == if i < 1024 then 7 else 0
    ensures Asked(K_MFCC, ONE_FRAME) && InOutput(K_MFCC, ONE_FRAME, 8192)
    ensures MainAfter(en, K_MFCC, ONE_FRAME, false, true, Active(SMALL, K_MFCC, ONE_FRAME, true), was, 8192) ==
              7 != was[8192]
  {
    OneFrameOperands();
    OneFramePlace();
    hide PlanOperands, Active, OutputBytes, Direct;
  }
}
