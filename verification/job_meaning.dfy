/**
  What a job asks for (`runtime/mesh/hes_job.h`, `runtime/mesh/cluster_main.c`), in the words of memory: which
  words of its operands a product's result comes from, byte by byte, and what a frame's scratch has to hold.
 */
module JobMeaning {
  import opened Arith
  import opened Options
  import opened Rings
  import opened Calls
  import opened Staging
  import opened ClusterJob
  import Gemm
  import Mfcc

  /** The products of the words that `x` and `y` lead to. */
  function Terms<E>(en: Encoding<E>, m: seq<Byte>, x: nat -> nat, y: nat -> nat): nat -> E {
    (k: nat) => WordTimesWord(en, m, x(k), y(k))
  }

  function WordTimesWord<E>(en: Encoding<E>, m: seq<Byte>, x: nat, y: nat): E {
    var v, w := WordAt(en, m, x), WordAt(en, m, y);
    en.nu.ring.mul(v, w)
  }

  /** Where the words of row i, and of column j, of a matrix stored at `at` row by row lie. */
  function AlongRow(at: nat, i: nat, columns: nat): nat -> nat { (k: nat) => at + 4 * (i * columns + k) }

  function DownColumn(at: nat, columns: nat, j: nat): nat -> nat { (k: nat) => at + 4 * (k * columns + j) }

  /** MatMul: Y[i][j] is the sum over k of A[i][k] B[k][j], all stored row by row. */
  lemma MatMulByte<E(!new)>(en: Encoding<E>, a: Args, m: seq<Byte>, i: nat, j: nat, b: nat)
    requires i < a[MM_M] && j < a[MM_O] && b < 4
    ensures var x, n := a[MM_Y] + 4 * (i * a[MM_O] + j) + b, a[MM_N];
            && InOutput(K_MATMUL, a, x)
            && DirectByte(en, K_MATMUL, a, m, x) ==
               en.byte(Sum(en.nu.ring, Terms(en, m, AlongRow(a[MM_A], i, n), DownColumn(a[MM_B], a[MM_O], j)), n), b)
  {
    hide Load, Gemm.Product, Terms, Stored;
    var s, n := Gemm.Shape(a[MM_M], a[MM_N], a[MM_O], false, false), a[MM_N];
    var r, x, y := en.nu.ring, Words(en, m, a[MM_A], s.m * s.n), Words(en, m, a[MM_B], s.n * s.o);
    var p, q := AlongRow(a[MM_A], i, n), DownColumn(a[MM_B], a[MM_O], j);
    MatMulLoads(en, a, m);
    Inside(i, j, b, a[MM_M], a[MM_O]);
    DirectIs(en, K_MATMUL, a, m, a[MM_Y] + 4 * (i * a[MM_O] + j) + b);
    StoredProduct(en, Product(s, x, y, None), i, j, b);
    forall k: nat | k < n ensures Gemm.Product(r, s, x, y, i, j)(k) == Terms(en, m, p, q)(k) {
      TermIs(en, m, s, a[MM_A], a[MM_B], i, j, k, p, q);
    }
    SumSame(r, Gemm.Product(r, s, x, y, i, j), Terms(en, m, p, q), n);
  }

  lemma MatMulLoads<E>(en: Encoding<E>, a: Args, m: seq<Byte>)
    ensures var s := Gemm.Shape(a[MM_M], a[MM_N], a[MM_O], false, false);
            Load(en, K_MATMUL, a, m) ==
              Product(s, Words(en, m, a[MM_A], s.m * s.n), Words(en, m, a[MM_B], s.n * s.o), None)
  {
  }

  /** Gemm: Y[i][j] is C[i][j] plus that sum; a transposed operand is stored column by column. */
  lemma GemmByte<E(!new)>(en: Encoding<E>, a: Args, m: seq<Byte>, i: nat, j: nat, b: nat)
    requires i < a[GEMM_M] && j < a[GEMM_O] && b < 4
    ensures var x, n := a[GEMM_Y] + 4 * (i * a[GEMM_O] + j) + b, a[GEMM_N];
            && InOutput(K_GEMM, a, x)
            && DirectByte(en, K_GEMM, a, m, x) ==
               en.byte(en.nu.ring.add(WordAt(en, m, a[GEMM_C] + 4 * (i * a[GEMM_O] + j)),
                                      Sum(en.nu.ring, Terms(en, m, RowOfA(a, i), ColumnOfB(a, j)), n)), b)
  {
    hide Load, Gemm.Product, Terms, RowOfA, ColumnOfB, Stored;
    var s := Gemm.Shape(a[GEMM_M], a[GEMM_N], a[GEMM_O], a[GEMM_TRANSA] != 0, a[GEMM_TRANSB] != 0);
    var n, p, q := a[GEMM_N], RowOfA(a, i), ColumnOfB(a, j);
    var r, x, y := en.nu.ring, Words(en, m, a[GEMM_A], s.m * s.n), Words(en, m, a[GEMM_B], s.n * s.o);
    var c := Words(en, m, a[GEMM_C], s.m * s.o);
    GemmLoads(en, a, m);
    Inside(i, j, b, a[GEMM_M], a[GEMM_O]);
    DirectIs(en, K_GEMM, a, m, a[GEMM_Y] + 4 * (i * a[GEMM_O] + j) + b);
    StoredProduct(en, Product(s, x, y, Some(c)), i, j, b);
    MulStep(i, s.m, s.o);
    WordsAt(en, m, a[GEMM_C], s.m * s.o, i * s.o + j);
    forall k: nat | k < n ensures Gemm.Product(r, s, x, y, i, j)(k) == Terms(en, m, p, q)(k) {
      RowsAndColumns(a, i, j, k);
      TermIs(en, m, s, a[GEMM_A], a[GEMM_B], i, j, k, p, q);
    }
    SumSame(r, Gemm.Product(r, s, x, y, i, j), Terms(en, m, p, q), n);
  }

  lemma GemmLoads<E>(en: Encoding<E>, a: Args, m: seq<Byte>)
    ensures var s := Gemm.Shape(a[GEMM_M], a[GEMM_N], a[GEMM_O], a[GEMM_TRANSA] != 0, a[GEMM_TRANSB] != 0);
            Load(en, K_GEMM, a, m) ==
              Product(s, Words(en, m, a[GEMM_A], s.m * s.n), Words(en, m, a[GEMM_B], s.n * s.o),
                      Some(Words(en, m, a[GEMM_C], s.m * s.o)))
  {
  }

  lemma RowsAndColumns(a: Args, i: nat, j: nat, k: nat)
    ensures var s := Gemm.Shape(a[GEMM_M], a[GEMM_N], a[GEMM_O], a[GEMM_TRANSA] != 0, a[GEMM_TRANSB] != 0);
            && RowOfA(a, i)(k) == a[GEMM_A] + 4 * Gemm.AIndex(s, i, k)
            && ColumnOfB(a, j)(k) == a[GEMM_B] + 4 * Gemm.BIndex(s, k, j)
  {
  }

  lemma WordsAt<E>(en: Encoding<E>, m: seq<Byte>, at: nat, n: nat, i: nat)
    requires i < n
    ensures Words(en, m, at, n)[i] == WordAt(en, m, at + 4 * i)
  {
  }

  /** Byte b of the word in row i, column j lies in a result of so many rows and columns of words. */
  lemma Inside(i: nat, j: nat, b: nat, rows: nat, columns: nat)
    requires i < rows && j < columns && b < 4
    ensures 0 <= 4 * (i * columns + j) + b < rows * (columns * 4)
  {
    MulStep(i, rows, columns);
    MulAssoc(rows, columns, 4);
  }

  /** Byte b of the word in row i, column j, as a product stores it. */
  lemma StoredProduct<E>(en: Encoding<E>, call: Call<E>, i: nat, j: nat, b: nat)
    requires call.Product? && Sized(call) && i < call.s.m && j < call.s.o && b < 4
    ensures Stored(en, call, 4 * (i * call.s.o + j) + b) ==
            en.byte(Gemm.Output(en.nu.ring, call.s, call.a, call.b, call.c, i, j), b)
  {
    hide Gemm.Flat, Gemm.Output;
    Gemm.FlatAt(en.nu.ring, call.s, call.a, call.b, call.c, i, j);
    var t := i * call.s.o + j;
    assert (4 * t + b) / 4 == t && (4 * t + b) % 4 == b;
  }

  lemma TermIs<E>(en: Encoding<E>, m: seq<Byte>, s: Gemm.Shape, x: nat, y: nat, i: nat, j: nat, k: nat,
                  p: nat -> nat, q: nat -> nat)
    requires i < s.m && k < s.n && j < s.o
    requires p(k) == x + 4 * Gemm.AIndex(s, i, k) && q(k) == y + 4 * Gemm.BIndex(s, k, j)
    ensures Gemm.Product(en.nu.ring, s, Words(en, m, x, s.m * s.n), Words(en, m, y, s.n * s.o), i, j)(k) ==
            Terms(en, m, p, q)(k)
  {
    hide Gemm.AIndex, Gemm.BIndex, Gemm.Product, WordAt, Words, Terms;
    Gemm.IndexBounds(s, i, k, j);
    var a, b := Words(en, m, x, s.m * s.n), Words(en, m, y, s.n * s.o);
    Gemm.ProductAt(en.nu.ring, s, a, b, i, j, k);
    WordsAt(en, m, x, |a|, Gemm.AIndex(s, i, k));
    WordsAt(en, m, y, |b|, Gemm.BIndex(s, k, j));
    TermsAt(en, m, p, q, k);
  }

  lemma TermsAt<E>(en: Encoding<E>, m: seq<Byte>, x: nat -> nat, y: nat -> nat, k: nat)
    ensures Terms(en, m, x, y)(k) == en.nu.ring.mul(WordAt(en, m, x(k)), WordAt(en, m, y(k)))
  {
    hide WordAt;
  }

  /** Row i of A, which may be stored column by column. */
  function RowOfA(a: Args, i: nat): nat -> nat {
    if a[GEMM_TRANSA] != 0 then DownColumn(a[GEMM_A], a[GEMM_M], i) else AlongRow(a[GEMM_A], i, a[GEMM_N])
  }

  function ColumnOfB(a: Args, j: nat): nat -> nat {
    if a[GEMM_TRANSB] != 0 then AlongRow(a[GEMM_B], j, a[GEMM_N]) else DownColumn(a[GEMM_B], a[GEMM_O], j)
  }

  /** A core's scratch is what a frame is worked on in: two parts of a spectrum and the mel energies, in floats. */
  lemma ScratchHoldsFrame<E>(en: Encoding<E>, a: Args, m: seq<Byte>, log: nat)
    requires a[MFCC_FFT_LEN] == Pow2(log)
    ensures var tb := TablesAt(en, m, a);
            tb.log == log && PlanScratch(K_MFCC, a) == 4 * (tb.FftLen() + tb.FftLen() + tb.nbMel)
  {
    if log > 0 { Pow2Monotone(log - 1, log); }
    CeilLog2Unique(a[MFCC_FFT_LEN], log);
  }
}
