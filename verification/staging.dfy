/**
  Where a cluster puts a job's operands (`runtime/mesh/cluster_main.c`): `plan_operands`,
  `plan_scratch`, the layout of scratch and staged copies in the heap, and how the job is sliced
  over the compute cores. All sizes are below 2^32, where the source computes in 32 bits.
 */
module Staging {
  import opened Arith
  import opened Options
  import opened Calls
  import Gemm
  import ConvSsr
  import Mfcc
  import Offload

  type Byte = b: int | 0 <= b < 256

  const LINE: nat := 64

  const K_MATMUL: nat := 2
  const K_GEMM: nat := 3
  const K_CONV2D: nat := 4
  const K_MFCC: nat := 5

  /* MatMul: A, B, Y, M, N, O. */
  const MM_A: nat := 0
  const MM_B: nat := 1
  const MM_Y: nat := 2
  const MM_M: nat := 3
  const MM_N: nat := 4
  const MM_O: nat := 5

  /* Gemm: A, B, C, Y, M, N, O, transA, transB. */
  const GEMM_A: nat := 0
  const GEMM_B: nat := 1
  const GEMM_C: nat := 2
  const GEMM_Y: nat := 3
  const GEMM_M: nat := 4
  const GEMM_N: nat := 5
  const GEMM_O: nat := 6
  const GEMM_TRANSA: nat := 7
  const GEMM_TRANSB: nat := 8

  /* Conv2d: A, C, H, W, B, F, P, Q, SP, SQ, bias, has_bias, Y. */
  const CONV_A: nat := 0
  const CONV_C: nat := 1
  const CONV_H: nat := 2
  const CONV_W: nat := 3
  const CONV_B: nat := 4
  const CONV_F: nat := 5
  const CONV_P: nat := 6
  const CONV_Q: nat := 7
  const CONV_SP: nat := 8
  const CONV_SQ: nat := 9
  const CONV_BIAS: nat := 10
  const CONV_HAS_BIAS: nat := 11
  const CONV_Y: nat := 12

  /* Mfcc: audio, out, frames, frame_len, hop, fft_len, window, twiddles, mel_coeff, mel_start, mel_len, nb_mel, dct,
    nb_cep, mel_coeffs. */
  const MFCC_AUDIO: nat := 0
  const MFCC_OUT: nat := 1
  const MFCC_NB_FRAMES: nat := 2
  const MFCC_FRAME_LEN: nat := 3
  const MFCC_HOP: nat := 4
  const MFCC_FFT_LEN: nat := 5
  const MFCC_WINDOW: nat := 6
  const MFCC_TWIDDLES: nat := 7
  const MFCC_MEL_COEFF: nat := 8
  const MFCC_MEL_START: nat := 9
  const MFCC_MEL_LEN: nat := 10
  const MFCC_NB_MEL: nat := 11
  const MFCC_DCT: nat := 12
  const MFCC_NB_CEP: nat := 13
  const MFCC_MEL_COEFFS: nat := 14

  type Args = a: seq<nat> | |a| == Offload.MAX_ARGS witness seq(Offload.MAX_ARGS, _ => 0)

  /** A pointer argument of a job: which slot, whether the kernel writes it, how many bytes it covers. */
  datatype Operand = Operand(slot: nat, output: bool, bytes: nat)

  function ConvOf(a: Args): ConvSsr.Conv {
    ConvSsr.Conv(a[CONV_C], a[CONV_H], a[CONV_W], a[CONV_F], a[CONV_P], a[CONV_Q], a[CONV_SP], a[CONV_SQ])
  }

  /** What the kernels ask of their dimensions. */
  ghost predicate Asked(kernel: nat, a: Args) {
    && (kernel == K_CONV2D ==> ConvOf(a).Valid())
    && (kernel == K_MFCC ==> a[MFCC_NB_FRAMES] > 0)
  }

  function Samples(a: Args): nat
    requires a[MFCC_NB_FRAMES] > 0
  {
    MulMono(0, a[MFCC_NB_FRAMES] - 1, a[MFCC_HOP]);
    (a[MFCC_NB_FRAMES] - 1) * a[MFCC_HOP] + a[MFCC_FRAME_LEN]
  }

  /** Bytes of so many units of so many words each. */
  function Block(units: nat, words: nat): (n: nat)
    ensures n == units * words * 4
  {
    MulMono(0, units, words);
    units * words * 4
  }

  /** `plan_operands`. */
  function PlanOperands(kernel: nat, a: Args): (ops: seq<Operand>)
    requires Asked(kernel, a)
    ensures forall op :: op in ops ==> op.slot < Offload.MAX_ARGS
    ensures forall i, j :: 0 <= i < j < |ops| ==> ops[i].slot != ops[j].slot
  {
    if kernel == K_MATMUL then
      var m, n, o := a[MM_M], a[MM_N], a[MM_O];
      [Operand(MM_A, false, Block(m, n)), Operand(MM_B, false, Block(n, o)), Operand(MM_Y, true, Block(m, o))]
    else if kernel == K_GEMM then
      var m, n, o := a[GEMM_M], a[GEMM_N], a[GEMM_O];
      [Operand(GEMM_A, false, Block(m, n)), Operand(GEMM_B, false, Block(n, o)), Operand(GEMM_C, false, Block(m, o)),
       Operand(GEMM_Y, true, Block(m, o))]
    else if kernel == K_CONV2D then
      var k := ConvOf(a);
      [Operand(CONV_A, false, Block(k.c * k.h, k.w)), Operand(CONV_B, false, Block(k.f, k.Taps())),
       Operand(CONV_Y, true, Block(k.f, k.Plane()))] +
      (if a[CONV_HAS_BIAS] != 0 then [Operand(CONV_BIAS, false, k.f * 4)] else [])
    else if kernel == K_MFCC then
      [Operand(MFCC_AUDIO, false, Samples(a) * 4), Operand(MFCC_OUT, true, Block(a[MFCC_NB_FRAMES], a[MFCC_NB_CEP])),
       Operand(MFCC_WINDOW, false, a[MFCC_FRAME_LEN] * 4), Operand(MFCC_TWIDDLES, false, a[MFCC_FFT_LEN] * 4),
       Operand(MFCC_MEL_COEFF, false, a[MFCC_MEL_COEFFS] * 4), Operand(MFCC_MEL_START, false, a[MFCC_NB_MEL] * 2),
       Operand(MFCC_MEL_LEN, false, a[MFCC_NB_MEL] * 2),
       Operand(MFCC_DCT, false, Block(a[MFCC_NB_CEP], a[MFCC_NB_MEL]))]
    else []
  }

  /** `plan_scratch`: bytes per compute core. */
  function PlanScratch(kernel: nat, a: Args): nat {
    if kernel == K_MFCC then (2 * a[MFCC_FFT_LEN] + a[MFCC_NB_MEL]) * 4 else 0
  }

  /* ---- The heap ---- */

  function AlignUp(x: nat): (y: nat)
    ensures x <= y < x + LINE
  {
    DivNonNegative(x + 63, LINE);
    (x + 63) / LINE * LINE
  }

  lemma Aligned(x: nat)
    ensures AlignUp(x) % LINE == 0
  {
    MultipleIs(AlignUp(x), LINE, (x + 63) / LINE);
  }

  /** The heap of a cluster, and how many compute cores share it. */
  datatype Heap = Heap(start: nat, end: nat, cores: nat)

  /** Per-core working storage at the bottom of the heap: base 0 if there is none. */
  function ScratchAt(h: Heap, bytes: nat): Offload.Scratch {
    var per := AlignUp(bytes);
    if bytes == 0 || AlignUp(h.start) + per * h.cores > h.end then Offload.Scratch(0, 0)
    else Offload.Scratch(AlignUp(h.start), per)
  }

  /** Where operands may start. */
  function CursorAt(h: Heap, bytes: nat): nat {
    var s := ScratchAt(h, bytes);
    AlignUp(h.start) + s.stride * h.cores
  }

  /** The cursor when the first n operands have been placed. */
  function CursorAfter(ops: seq<Operand>, cursor: nat, n: nat): (c: nat)
    requires n <= |ops|
    ensures cursor <= c
  {
    if n == 0 then cursor else AlignUp(CursorAfter(ops, cursor, n - 1)) + ops[n - 1].bytes
  }

  function Local(ops: seq<Operand>, cursor: nat, i: nat): nat
    requires i < |ops|
  {
    AlignUp(CursorAfter(ops, cursor, i))
  }

  function Locals(ops: seq<Operand>, cursor: nat): seq<nat>
  {
    seq(|ops|, (i: nat) requires i < |ops| => Local(ops, cursor, i))
  }

  /** Every operand fits. */
  predicate Fits(ops: seq<Operand>, cursor: nat, end: nat) {
    forall i :: 0 <= i < |ops| ==> Local(ops, cursor, i) + ops[i].bytes <= end
  }

  lemma {:induction false} CursorGrows(ops: seq<Operand>, cursor: nat, i: nat, j: nat)
    requires i < j <= |ops|
    ensures Local(ops, cursor, i) + ops[i].bytes <= CursorAfter(ops, cursor, j)
  {
    if i < j - 1 { CursorGrows(ops, cursor, i, j - 1); }
  }

  /** Staging is refused exactly if the last operand ends past the heap. */
  lemma FitsIff(ops: seq<Operand>, cursor: nat, end: nat)
    requires ops != []
    ensures Fits(ops, cursor, end) <==> CursorAfter(ops, cursor, |ops|) <= end
  {
    var n := |ops| - 1;
    assert CursorAfter(ops, cursor, n + 1) == Local(ops, cursor, n) + ops[n].bytes;
    forall i | 0 <= i < |ops| ensures Local(ops, cursor, i) + ops[i].bytes <= CursorAfter(ops, cursor, |ops|) {
      CursorGrows(ops, cursor, i, |ops|);
    }
  }

  predicate Disjoint(at: nat, n: nat, at': nat, n': nat) { at + n <= at' || at' + n' <= at }

  /** Where the slab of a compute core is. */
  function Slab(s: Offload.Scratch, core: nat): nat { MulMono(0, core, s.stride); s.base + core * s.stride }

  /** A slab lies in the heap, below the operands, on a line of its own, and holds what the kernel needs. */
  lemma SlabFits(h: Heap, scratch: nat, core: nat)
    requires ScratchAt(h, scratch).base != 0 && core < h.cores
    ensures var s := ScratchAt(h, scratch);
            && s.stride % LINE == 0 && scratch <= s.stride && s.base == AlignUp(h.start)
            && h.start <= Slab(s, core) && Slab(s, core) + s.stride <= CursorAt(h, scratch) <= h.end
  {
    MulStep(core, h.cores, ScratchAt(h, scratch).stride);
    Aligned(scratch);
    hide AlignUp;
  }

  lemma SlabsApart(s: Offload.Scratch, core: nat, core': nat)
    requires core < core'
    ensures Disjoint(Slab(s, core), s.stride, Slab(s, core'), s.stride)
  {
    MulStep(core, core', s.stride);
  }

  /** A staged copy is aligned, in the heap, above every slab; and two copies are apart. */
  lemma CopiesApart(h: Heap, scratch: nat, ops: seq<Operand>, i: nat, j: nat)
    requires Fits(ops, CursorAt(h, scratch), h.end) && i < j < |ops|
    ensures var c := CursorAt(h, scratch);
            && Local(ops, c, i) % LINE == Local(ops, c, j) % LINE == 0
            && h.start <= c <= Local(ops, c, i) && Local(ops, c, i) + ops[i].bytes <= Local(ops, c, j)
            && Local(ops, c, j) + ops[j].bytes <= h.end
  {
    var s := ScratchAt(h, scratch);
    MulMono(0, h.cores, s.stride);
    Aligned(CursorAfter(ops, CursorAt(h, scratch), i));
    Aligned(CursorAfter(ops, CursorAt(h, scratch), j));
    hide ScratchAt, AlignUp;
    CursorGrows(ops, CursorAt(h, scratch), i, j);
  }

  /* ---- What a kernel finds behind its pointers ---- */

  /** How numbers lie in memory: the word of four bytes, byte i of a word, the number of two bytes. */
  datatype Encoding<!E> = Encoding(nu: Numbers<E>, word: (Byte, Byte, Byte, Byte) -> E, byte: (E, nat) -> Byte,
                                   half: (Byte, Byte) -> nat)

  function At(m: seq<Byte>, x: nat): Byte { if x < |m| then m[x] else 0 }

  function AtOffset(m: seq<Byte>, at: nat, i: nat): Byte { At(m, at + i) }

  function WordAt<E>(en: Encoding<E>, m: seq<Byte>, x: nat): E
  {
    en.word(At(m, x), At(m, x + 1), At(m, x + 2), At(m, x + 3))
  }

  function Words<E>(en: Encoding<E>, m: seq<Byte>, at: nat, n: nat): (w: seq<E>)
    ensures |w| == n
  {
    seq(n, (i: nat) => WordAt(en, m, at + 4 * i))
  }

  function Halves<E>(en: Encoding<E>, m: seq<Byte>, at: nat, n: nat): (w: seq<nat>)
    ensures |w| == n
  {
    seq(n, (i: nat) => en.half(At(m, at + 2 * i), At(m, at + 2 * i + 1)))
  }

  function TablesAt<E>(en: Encoding<E>, m: seq<Byte>, a: Args): Mfcc.Tables<E> {
    Mfcc.Tables(a[MFCC_FRAME_LEN], a[MFCC_HOP], CeilLog2(a[MFCC_FFT_LEN]),
                Words(en, m, a[MFCC_WINDOW], a[MFCC_FRAME_LEN]), Words(en, m, a[MFCC_TWIDDLES], a[MFCC_FFT_LEN]),
                Halves(en, m, a[MFCC_MEL_START], a[MFCC_NB_MEL]), Halves(en, m, a[MFCC_MEL_LEN], a[MFCC_NB_MEL]),
                Words(en, m, a[MFCC_MEL_COEFF], a[MFCC_MEL_COEFFS]), a[MFCC_NB_MEL],
                Words(en, m, a[MFCC_DCT], a[MFCC_NB_CEP] * a[MFCC_NB_MEL]), a[MFCC_NB_CEP], en.nu.floorLog)
  }

  /** The call a kernel makes of its arguments. */
  function Load<E>(en: Encoding<E>, kernel: nat, a: Args, m: seq<Byte>): (call: Call<E>)
    requires Asked(kernel, a)
    ensures Sized(call)
  {
    if kernel == K_MATMUL then
      var s := Gemm.Shape(a[MM_M], a[MM_N], a[MM_O], false, false);
      Product(s, Words(en, m, a[MM_A], s.m * s.n), Words(en, m, a[MM_B], s.n * s.o), None)
    else if kernel == K_GEMM then
      var s := Gemm.Shape(a[GEMM_M], a[GEMM_N], a[GEMM_O], a[GEMM_TRANSA] != 0, a[GEMM_TRANSB] != 0);
      Product(s, Words(en, m, a[GEMM_A], s.m * s.n), Words(en, m, a[GEMM_B], s.n * s.o),
              Some(Words(en, m, a[GEMM_C], s.m * s.o)))
    else if kernel == K_CONV2D then
      var k := ConvOf(a);
      Convolve(k, Words(en, m, a[CONV_A], k.c * k.h * k.w), Words(en, m, a[CONV_B], k.f * k.Taps()),
               if a[CONV_HAS_BIAS] != 0 then Some(Words(en, m, a[CONV_BIAS], k.f)) else None)
    else if kernel == K_MFCC then
      Cepstra(TablesAt(en, m, a), Words(en, m, a[MFCC_AUDIO], Samples(a)), a[MFCC_NB_FRAMES])
    else Nothing
  }

  /** Byte x of what a kernel stores. */
  function Stored<E>(en: Encoding<E>, call: Call<E>, x: nat): Byte
    requires Sized(call)
  {
    en.byte(ElementOf(en.nu, call, x / 4), x % 4)
  }

  /** Where it stores it. */
  function OutputSlot(kernel: nat): nat {
    if kernel == K_MATMUL then MM_Y else if kernel == K_GEMM then GEMM_Y else if kernel == K_CONV2D then CONV_Y
       else MFCC_OUT
  }

  /** What a job is sliced over, and the bytes of result for each. */
  function JobUnits(kernel: nat, a: Args): nat {
    if kernel == K_MATMUL then a[MM_M] else if kernel == K_GEMM then a[GEMM_M]
    else if kernel == K_CONV2D then a[CONV_F] else if kernel == K_MFCC then a[MFCC_NB_FRAMES] else 0
  }

  function UnitBytes(kernel: nat, a: Args): nat
    requires Asked(kernel, a)
  {
    if kernel == K_MATMUL then a[MM_O] * 4 else if kernel == K_GEMM then a[GEMM_O] * 4
    else if kernel == K_CONV2D then ConvOf(a).Plane() * 4 else if kernel == K_MFCC then a[MFCC_NB_CEP] * 4 else 0
  }

  lemma UnitsMatch<E>(en: Encoding<E>, kernel: nat, a: Args, m: seq<Byte>)
    requires Asked(kernel, a)
    ensures Units(Load(en, kernel, a, m)) == JobUnits(kernel, a) &&
            UnitLength(Load(en, kernel, a, m)) * 4 == UnitBytes(kernel, a)
  {
  }

  /* ---- Slices ---- */

  /** `slice`: where core idx of nb starts. */
  function SliceStart(n: nat, idx: nat, nb: nat): nat
    requires nb > 0
  {
    DivNonNegative(n, nb);
    idx * (n / nb) + Min(idx, n % nb)
  }

  /** The slices follow one another, cover everything, and differ by one at most. */
  lemma SlicesPartition(n: nat, idx: nat, nb: nat)
    requires idx < nb
    ensures SliceStart(n, 0, nb) == 0 && SliceStart(n, nb, nb) == n
    ensures n / nb <= SliceStart(n, idx + 1, nb) - SliceStart(n, idx, nb) <= n / nb + 1
    ensures SliceStart(n, idx, nb) <= SliceStart(n, idx + 1, nb) <= n
  {
    DivNonNegative(n, nb);
    Distribute(idx, 1, n / nb);
    MulMono(idx + 1, nb, n / nb);
  }

  lemma {:induction false} SliceStartsGrow(n: nat, i: nat, j: nat, nb: nat)
    requires i <= j <= nb && nb > 0
    ensures SliceStart(n, i, nb) <= SliceStart(n, j, nb) <= n
    decreases j
  {
    hide SliceStart;
    if j < nb { SlicesPartition(n, j, nb); } else { SlicesPartition(n, j - 1, nb); }
    if i < j { SlicesPartition(n, j - 1, nb); SliceStartsGrow(n, i, j - 1, nb); }
  }

  /** Every unit is in one core's slice. */
  lemma {:induction false} SliceOf(n: nat, u: nat, k: nat, nb: nat) returns (idx: nat)
    requires k <= nb && nb > 0 && u < SliceStart(n, k, nb)
    ensures idx < k && SliceStart(n, idx, nb) <= u < SliceStart(n, idx + 1, nb)
  {
    if SliceStart(n, k - 1, nb) <= u { idx := k - 1; } else { idx := SliceOf(n, u, k - 1, nb); }
  }

  /** The share of core idx of a job, as `run_slice` has it. */
  function First(kernel: nat, a: Args, idx: nat, nb: nat): nat
    requires nb > 0
  {
    if kernel == K_GEMM && a[GEMM_TRANSA] != 0 then 0 else SliceStart(JobUnits(kernel, a), idx, nb)
  }

  function Last(kernel: nat, a: Args, idx: nat, nb: nat): nat
    requires nb > 0
  {
    if kernel == K_GEMM && a[GEMM_TRANSA] != 0 then if idx == 0 then a[GEMM_M] else 0
    else SliceStart(JobUnits(kernel, a), idx + 1, nb)
  }

  /** The arguments of a share: pointers moved, extent cut. */
  function Sliced(kernel: nat, a: Args, first: nat, last: nat): Args
    requires Asked(kernel, a) && first < last
  {
    if kernel == K_MATMUL then
      a[MM_A := a[MM_A] + Block(first, a[MM_N])][MM_Y := a[MM_Y] + Block(first, a[MM_O])][MM_M := last - first]
    else if kernel == K_GEMM then
      a[GEMM_A := a[GEMM_A] + Block(first, a[GEMM_N])][GEMM_C := a[GEMM_C] + Block(first, a[GEMM_O])]
       [GEMM_Y := a[GEMM_Y] + Block(first, a[GEMM_O])][GEMM_M := last - first]
    else if kernel == K_CONV2D then
      a[CONV_B := a[CONV_B] + Block(first, ConvOf(a).Taps())][CONV_F := last - first]
       [CONV_BIAS := a[CONV_BIAS] + first * 4]
       [CONV_Y := a[CONV_Y] + Block(first, ConvOf(a).Plane())]
    else if kernel == K_MFCC then
      a[MFCC_AUDIO := a[MFCC_AUDIO] + Block(first, a[MFCC_HOP])][MFCC_OUT := a[MFCC_OUT] + Block(first, a[MFCC_NB_CEP])]
       [MFCC_NB_FRAMES := last - first]
    else a
  }

  lemma SubWords<E>(en: Encoding<E>, m: seq<Byte>, at: nat, n: nat, lo: nat, hi: nat)
    requires lo <= hi <= n
    ensures Words(en, m, at, n)[lo..hi] == Words(en, m, at + lo * 4, hi - lo)
  {
    hide WordAt;
    var x, y := Words(en, m, at, n)[lo..hi], Words(en, m, at + lo * 4, hi - lo);
    forall i: nat | i < hi - lo ensures x[i] == y[i] {
      assert at + 4 * (lo + i) == at + lo * 4 + 4 * i;
    }
  }

  /** Pointer arithmetic and smaller extent make exactly the share: what the sliced arguments lead to. */
  lemma SlicedIsShare<E>(en: Encoding<E>, kernel: nat, a: Args, first: nat, last: nat, m: seq<Byte>)
    requires Asked(kernel, a) && first < last <= JobUnits(kernel, a)
    requires kernel == K_GEMM && a[GEMM_TRANSA] != 0 ==> first == 0 && last == JobUnits(kernel, a)
    ensures Asked(kernel, Sliced(kernel, a, first, last))
    ensures Load(en, kernel, Sliced(kernel, a, first, last), m) == Share(Load(en, kernel, a, m), first, last)
  {
    if kernel == K_MATMUL { SlicedProduct(en, a, first, last, m); }
    else if kernel == K_GEMM { SlicedGemm(en, a, first, last, m); }
    else if kernel == K_CONV2D { SlicedConv(en, a, first, last, m); }
    else if kernel == K_MFCC { SlicedMfcc(en, a, first, last, m); }
  }

  lemma SlicedProduct<E>(en: Encoding<E>, a: Args, first: nat, last: nat, m: seq<Byte>)
    requires first < last <= JobUnits(K_MATMUL, a)
    ensures Load(en, K_MATMUL, Sliced(K_MATMUL, a, first, last), m) == Share(Load(en, K_MATMUL, a, m), first, last)
  {
    SubRows(en, m, a[MM_A], a[MM_M], a[MM_N], first, last);
    hide Words;
  }

  /** Rows [first, last) of a matrix of `rows` rows of n words. */
  lemma SubRows<E>(en: Encoding<E>, m: seq<Byte>, at: nat, rows: nat, n: nat, first: nat, last: nat)
    requires first <= last <= rows
    ensures 0 <= first * n <= last * n <= rows * n && (last - first) * n == last * n - first * n
    ensures Words(en, m, at, rows * n)[first * n..last * n] == Words(en, m, at + first * n * 4, (last - first) * n)
  {
    MulMono(0, first, n); MulMono(first, last, n); MulMono(last, rows, n); Distribute(last - first, first, n);
    SubWords(en, m, at, rows * n, first * n, last * n);
  }

  lemma SlicedGemm<E>(en: Encoding<E>, a: Args, first: nat, last: nat, m: seq<Byte>)
    requires first < last <= JobUnits(K_GEMM, a) && (a[GEMM_TRANSA] != 0 ==> first == 0 && last == a[GEMM_M])
    ensures Load(en, K_GEMM, Sliced(K_GEMM, a, first, last), m) == Share(Load(en, K_GEMM, a, m), first, last)
  {
    SubRows(en, m, a[GEMM_A], a[GEMM_M], a[GEMM_N], first, last);
    SubRows(en, m, a[GEMM_C], a[GEMM_M], a[GEMM_O], first, last);
    hide Words;
    if a[GEMM_TRANSA] != 0 { assert Sliced(K_GEMM, a, first, last) == a; }
  }

  lemma SlicedConv<E>(en: Encoding<E>, a: Args, first: nat, last: nat, m: seq<Byte>)
    requires Asked(K_CONV2D, a) && first < last <= JobUnits(K_CONV2D, a)
    ensures Asked(K_CONV2D, Sliced(K_CONV2D, a, first, last))
    ensures Load(en, K_CONV2D, Sliced(K_CONV2D, a, first, last), m) == Share(Load(en, K_CONV2D, a, m), first, last)
  {
    SubRows(en, m, a[CONV_B], a[CONV_F], ConvOf(a).Taps(), first, last);
    SubWords(en, m, a[CONV_BIAS], a[CONV_F], first, last);
    hide Words;
  }

  lemma SlicedMfcc<E>(en: Encoding<E>, a: Args, first: nat, last: nat, m: seq<Byte>)
    requires Asked(K_MFCC, a) && first < last <= JobUnits(K_MFCC, a)
    ensures Load(en, K_MFCC, Sliced(K_MFCC, a, first, last), m) == Share(Load(en, K_MFCC, a, m), first, last)
  {
    var hop := a[MFCC_HOP];
    MulMono(first, last - 1, hop); MulMono(last - 1, a[MFCC_NB_FRAMES] - 1, hop);
    Distribute(last - 1 - first, first, hop);
    SubWords(en, m, a[MFCC_AUDIO], Samples(a), first * hop, (last - 1) * hop + a[MFCC_FRAME_LEN]);
    hide Words;
  }

  /* ---- A job does not care where its operands are ---- */

  /** Bytes [at, at + n) of one memory are bytes [at', at' + n) of another. */
  ghost predicate SameBytes(m: seq<Byte>, at: nat, m': seq<Byte>, at': nat, n: nat) {
    forall i: nat :: i < n ==> AtOffset(m, at, i) == AtOffset(m', at', i)
  }

  /** Everything the kernel reads is the same, wherever it lies. */
  ghost predicate SameInputs(kernel: nat, a: Args, m: seq<Byte>, a': Args, m': seq<Byte>)
    requires Asked(kernel, a)
  {
    && (forall s :: 0 <= s < Offload.MAX_ARGS && (forall op :: op in PlanOperands(kernel, a) ==> op.slot != s) ==>
        a'[s] == a[s])
    && (forall op :: op in PlanOperands(kernel, a) && !op.output ==>
        SameBytes(m, a[op.slot], m', a'[op.slot], op.bytes))
  }

  lemma SameBytesOn(m: seq<Byte>, at: nat, m': seq<Byte>, at': nat, m'': seq<Byte>, at'': nat, n: nat)
    requires SameBytes(m, at, m', at', n) && SameBytes(m', at', m'', at'', n)
    ensures SameBytes(m, at, m'', at'', n)
  {
    hide AtOffset;
    forall i: nat | i < n ensures AtOffset(m, at, i) == AtOffset(m'', at'', i) {
      assert AtOffset(m, at, i) == AtOffset(m', at', i);
    }
  }

  lemma WordsSame<E>(en: Encoding<E>, m: seq<Byte>, at: nat, m': seq<Byte>, at': nat, n: nat)
    requires SameBytes(m, at, m', at', n * 4)
    ensures Words(en, m, at, n) == Words(en, m', at', n)
  {
    forall i: nat | i < n ensures WordAt(en, m, at + 4 * i) == WordAt(en, m', at' + 4 * i) {
      var x := 4 * i;
      assert AtOffset(m, at, x) == AtOffset(m', at', x) && AtOffset(m, at, x + 1) == AtOffset(m', at', x + 1);
      assert AtOffset(m, at, x + 2) == AtOffset(m', at', x + 2) && AtOffset(m, at, x + 3) == AtOffset(m', at', x + 3);
    }
    hide WordAt;
  }

  lemma HalvesSame<E>(en: Encoding<E>, m: seq<Byte>, at: nat, m': seq<Byte>, at': nat, n: nat)
    requires SameBytes(m, at, m', at', n * 2)
    ensures Halves(en, m, at, n) == Halves(en, m', at', n)
  {
    var x, y := Halves(en, m, at, n), Halves(en, m', at', n);
    forall i: nat | i < n ensures x[i] == y[i] {
      var b := 2 * i;
      assert AtOffset(m, at, b) == AtOffset(m', at', b) && AtOffset(m, at, b + 1) == AtOffset(m', at', b + 1);
    }
  }

  lemma Relocated<E>(en: Encoding<E>, kernel: nat, a: Args, m: seq<Byte>, a': Args, m': seq<Byte>)
    requires Asked(kernel, a) && SameInputs(kernel, a, m, a', m')
    ensures Asked(kernel, a') && Load(en, kernel, a', m') == Load(en, kernel, a, m) &&
            PlanOperands(kernel, a') == PlanOperands(kernel, a)
  {
    if kernel == K_MATMUL { RelocatedMatMul(en, a, m, a', m'); }
    else if kernel == K_GEMM { RelocatedGemm(en, a, m, a', m'); }
    else if kernel == K_CONV2D { RelocatedConv(en, a, m, a', m'); }
    else if kernel == K_MFCC { RelocatedMfcc(en, a, m, a', m'); }
  }

  lemma RelocatedMatMul<E>(en: Encoding<E>, a: Args, m: seq<Byte>, a': Args, m': seq<Byte>)
    requires SameInputs(K_MATMUL, a, m, a', m')
    ensures Load(en, K_MATMUL, a', m') == Load(en, K_MATMUL, a, m) &&
            PlanOperands(K_MATMUL, a') == PlanOperands(K_MATMUL, a)
  {
    var ops := PlanOperands(K_MATMUL, a);
    assert !ops[0].output && !ops[1].output;
    hide SameBytes, Words;
    WordsSame(en, m, a[MM_A], m', a'[MM_A], a[MM_M] * a[MM_N]);
    WordsSame(en, m, a[MM_B], m', a'[MM_B], a[MM_N] * a[MM_O]);
  }

  lemma RelocatedGemm<E>(en: Encoding<E>, a: Args, m: seq<Byte>, a': Args, m': seq<Byte>)
    requires SameInputs(K_GEMM, a, m, a', m')
    ensures Load(en, K_GEMM, a', m') == Load(en, K_GEMM, a, m) && PlanOperands(K_GEMM, a') == PlanOperands(K_GEMM, a)
  {
    var ops := PlanOperands(K_GEMM, a);
    assert !ops[0].output && !ops[1].output && !ops[2].output;
    hide SameBytes, Words;
    WordsSame(en, m, a[GEMM_A], m', a'[GEMM_A], a[GEMM_M] * a[GEMM_N]);
    WordsSame(en, m, a[GEMM_B], m', a'[GEMM_B], a[GEMM_N] * a[GEMM_O]);
    WordsSame(en, m, a[GEMM_C], m', a'[GEMM_C], a[GEMM_M] * a[GEMM_O]);
  }

  lemma RelocatedConv<E>(en: Encoding<E>, a: Args, m: seq<Byte>, a': Args, m': seq<Byte>)
    requires Asked(K_CONV2D, a) && SameInputs(K_CONV2D, a, m, a', m')
    ensures Asked(K_CONV2D, a') && Load(en, K_CONV2D, a', m') == Load(en, K_CONV2D, a, m)
    ensures PlanOperands(K_CONV2D, a') == PlanOperands(K_CONV2D, a)
  {
    var ops, k := PlanOperands(K_CONV2D, a), ConvOf(a);
    assert !ops[0].output && !ops[1].output;
    hide SameBytes, Words;
    WordsSame(en, m, a[CONV_A], m', a'[CONV_A], k.c * k.h * k.w);
    WordsSame(en, m, a[CONV_B], m', a'[CONV_B], k.f * k.Taps());
    if a[CONV_HAS_BIAS] != 0 {
      assert !ops[3].output;
      WordsSame(en, m, a[CONV_BIAS], m', a'[CONV_BIAS], k.f);
    }
  }

  lemma MfccInputs(a: Args, m: seq<Byte>, a': Args, m': seq<Byte>)
    requires Asked(K_MFCC, a) && SameInputs(K_MFCC, a, m, a', m')
    ensures forall s :: 2 <= s < 15 && s != 6 && s != 7 && s != 8 && s != 9 && s != 10 && s != 12 ==> a'[s] == a[s]
    ensures SameBytes(m, a[MFCC_AUDIO], m', a'[MFCC_AUDIO], Samples(a) * 4)
    ensures SameBytes(m, a[MFCC_WINDOW], m', a'[MFCC_WINDOW], a[MFCC_FRAME_LEN] * 4)
    ensures SameBytes(m, a[MFCC_TWIDDLES], m', a'[MFCC_TWIDDLES], a[MFCC_FFT_LEN] * 4)
    ensures SameBytes(m, a[MFCC_MEL_COEFF], m', a'[MFCC_MEL_COEFF], a[MFCC_MEL_COEFFS] * 4)
    ensures SameBytes(m, a[MFCC_MEL_START], m', a'[MFCC_MEL_START], a[MFCC_NB_MEL] * 2)
    ensures SameBytes(m, a[MFCC_MEL_LEN], m', a'[MFCC_MEL_LEN], a[MFCC_NB_MEL] * 2)
    ensures SameBytes(m, a[MFCC_DCT], m', a'[MFCC_DCT], a[MFCC_NB_CEP] * a[MFCC_NB_MEL] * 4)
  {
    var ops := PlanOperands(K_MFCC, a);
    assert !ops[0].output && forall i :: 2 <= i < 8 ==> !ops[i].output;
    hide SameBytes, Samples;
  }

  lemma MfccPlan(a: Args, a': Args)
    requires Asked(K_MFCC, a)
    requires forall s :: 2 <= s < 15 && s != 6 && s != 7 && s != 8 && s != 9 && s != 10 && s != 12 ==> a'[s] == a[s]
    ensures Asked(K_MFCC, a') && PlanOperands(K_MFCC, a') == PlanOperands(K_MFCC, a)
  {
  }

  lemma RelocatedMfcc<E>(en: Encoding<E>, a: Args, m: seq<Byte>, a': Args, m': seq<Byte>)
    requires Asked(K_MFCC, a) && SameInputs(K_MFCC, a, m, a', m')
    ensures Asked(K_MFCC, a') && Load(en, K_MFCC, a', m') == Load(en, K_MFCC, a, m) &&
            PlanOperands(K_MFCC, a') == PlanOperands(K_MFCC, a)
  {
    hide SameBytes, Words, Halves, PlanOperands, SameInputs;
    MfccInputs(a, m, a', m');
    MfccPlan(a, a');
    WordsSame(en, m, a[MFCC_AUDIO], m', a'[MFCC_AUDIO], Samples(a));
    WordsSame(en, m, a[MFCC_WINDOW], m', a'[MFCC_WINDOW], a[MFCC_FRAME_LEN]);
    WordsSame(en, m, a[MFCC_TWIDDLES], m', a'[MFCC_TWIDDLES], a[MFCC_FFT_LEN]);
    WordsSame(en, m, a[MFCC_MEL_COEFF], m', a'[MFCC_MEL_COEFF], a[MFCC_MEL_COEFFS]);
    HalvesSame(en, m, a[MFCC_MEL_START], m', a'[MFCC_MEL_START], a[MFCC_NB_MEL]);
    HalvesSame(en, m, a[MFCC_MEL_LEN], m', a'[MFCC_MEL_LEN], a[MFCC_NB_MEL]);
    WordsSame(en, m, a[MFCC_DCT], m', a'[MFCC_DCT], a[MFCC_NB_CEP] * a[MFCC_NB_MEL]);
  }
}
