/**
  The MFCC front-end (`runtime/common/kernels/mfcc_fp32.c`): window, transform, power spectrum,
  banded mel filters, logarithm, cosine transform. The spectrum part is shared with the streamed
  kernel; the logarithm with its floor is an arbitrary function of one value.
 */
module Mfcc {
  import opened Arith
  import opened Rings
  import opened Fft
  import opened Ssr
  import opened Tiles

  /** What the kernel is handed besides audio and memory to work in. */
  datatype Tables<!E> = Tables(
    frameLen: nat, hop: nat, log: nat, window: seq<E>, twiddles: seq<E>,
    melStart: seq<nat>, melLen: seq<nat>, melCoeff: seq<E>, nbMel: nat,
    dct: seq<E>, nbCep: nat, floorLog: E -> E)
  {
    function FftLen(): nat { Pow2(log) }
  }

  /** Where the coefficients of filter m begin: after those of the filters before it. */
  function MelOffset(melLen: seq<nat>, m: nat): nat
    requires m <= |melLen|
  {
    if m == 0 then 0 else MelOffset(melLen, m - 1) + melLen[m - 1]
  }

  lemma {:induction false} MelOffsetGrows(melLen: seq<nat>, m: nat, n: nat)
    requires m < n <= |melLen|
    ensures MelOffset(melLen, m) + melLen[m] <= MelOffset(melLen, n)
  {
    if m < n - 1 { MelOffsetGrows(melLen, m, n - 1); }
  }

  /** The tables have the sizes the header asks for, and the twiddles are powers of `w`, half a turn apart. */
  ghost predicate Valid<E>(r: Ring<E>, tb: Tables<E>, w: Pair<E>) {
    && tb.frameLen <= |tb.window| && tb.frameLen <= tb.FftLen()
    && Table(r, tb.twiddles, w, tb.FftLen()) && (tb.log > 0 ==> HalfTurn(Pairs(r), w, Pow2(tb.log - 1)))
    && tb.nbMel <= |tb.melStart| && tb.nbMel <= |tb.melLen|
    && (forall m :: 0 <= m < tb.nbMel ==> tb.melStart[m] + tb.melLen[m] <= tb.FftLen() / 2 + 1)
    && MelOffset(tb.melLen, tb.nbMel) <= |tb.melCoeff|
    && tb.nbCep * tb.nbMel <= |tb.dct|
  }

  ghost predicate Audio<E>(tb: Tables<E>, audio: seq<E>, nbFrames: nat) {
    forall t: nat :: t < nbFrames ==> t * tb.hop + tb.frameLen <= |audio|
  }

  /* ---- What a frame's features are ---- */

  /** One frame: windowed samples, padded with zeros to the transform's length. */
  function FrameOf<E>(r: Ring<E>, tb: Tables<E>, audio: seq<E>, t: nat): (x: seq<Pair<E>>)
    ensures |x| == tb.FftLen()
  {
    seq(tb.FftLen(), i requires 0 <= i < tb.FftLen() =>
      Pair(if i < tb.frameLen then r.mul(Element(r, audio)(t * tb.hop + i), Element(r, tb.window)(i)) else r.zero,
           r.zero))
  }

  function Power<E>(r: Ring<E>, x: seq<Pair<E>>, w: Pair<E>, b: nat): E {
    var z := Dft(Pairs(r), x, w, b);
    r.add(r.mul(z.re, z.re), r.mul(z.im, z.im))
  }

  function MelTerm<E>(r: Ring<E>, tb: Tables<E>, x: seq<Pair<E>>, w: Pair<E>, m: nat): nat -> E
    requires m < |tb.melStart| && m < |tb.melLen|
  {
    (i: nat) => r.mul(Power(r, x, w, tb.melStart[m] + i), Element(r, tb.melCoeff)(MelOffset(tb.melLen, m) + i))
  }

  /** The energy of mel band m: its run of the power spectrum against its coefficients. */
  function MelEnergy<E>(r: Ring<E>, tb: Tables<E>, x: seq<Pair<E>>, w: Pair<E>, m: nat): E
    requires m < |tb.melStart| && m < |tb.melLen|
  {
    Sum(r, MelTerm(r, tb, x, w, m), tb.melLen[m])
  }

  function CepTerm<E>(r: Ring<E>, tb: Tables<E>, x: seq<Pair<E>>, w: Pair<E>, c: nat): nat -> E {
    (m: nat) => if m < |tb.melStart| && m < |tb.melLen|
                then r.mul(Element(r, tb.dct)(c * tb.nbMel + m), tb.floorLog(MelEnergy(r, tb, x, w, m))) else r.zero
  }

  /** Cepstrum c: row c of the cosine matrix against the logarithms of the mel energies. */
  function Cepstrum<E>(r: Ring<E>, tb: Tables<E>, x: seq<Pair<E>>, w: Pair<E>, c: nat): E {
    Sum(r, CepTerm(r, tb, x, w, c), tb.nbMel)
  }

  /** All frames' features, frame after frame. */
  function Features<E>(r: Ring<E>, tb: Tables<E>, audio: seq<E>, nbFrames: nat, w: Pair<E>): nat -> E {
    (q: nat) => if tb.nbCep > 0 && Quo(q, tb.nbCep) < nbFrames
                then Cepstrum(r, tb, FrameOf(r, tb, audio, Quo(q, tb.nbCep)), w, Rem(q, tb.nbCep)) else r.zero
  }

  lemma FeatureAt<E>(r: Ring<E>, tb: Tables<E>, audio: seq<E>, nbFrames: nat, w: Pair<E>, t: nat, c: nat)
    requires t < nbFrames && c < tb.nbCep
    ensures Features(r, tb, audio, nbFrames, w)(t * tb.nbCep + c) == Cepstrum(r, tb, FrameOf(r, tb, audio, t), w, c)
    ensures t * tb.nbCep + c < nbFrames * tb.nbCep
  {
    Digits(t * tb.nbCep + c, tb.nbCep, t, c);
    MulStep(t, nbFrames, tb.nbCep);
    hide FrameOf, Cepstrum;
  }

  /** The result holds the features of the frames before t and the first c of frame t. */
  ghost predicate Emitted<E>(r: Ring<E>, tb: Tables<E>, audio: seq<E>, nbFrames: nat, w: Pair<E>, was: seq<E>,
                             out: seq<E>, t: nat, c: nat) {
    Filled(nbFrames * tb.nbCep, Features(r, tb, audio, nbFrames, w), was, out, t * tb.nbCep + c)
  }

  lemma EmitOne<E>(r: Ring<E>, tb: Tables<E>, audio: seq<E>, nbFrames: nat, w: Pair<E>, was: seq<E>, out: seq<E>,
                   t: nat, c: nat)
    requires t < nbFrames && c < tb.nbCep && Emitted(r, tb, audio, nbFrames, w, was, out, t, c)
    ensures t * tb.nbCep + c < |out|
    ensures Emitted(r, tb, audio, nbFrames, w, was,
                    out[t * tb.nbCep + c := Cepstrum(r, tb, FrameOf(r, tb, audio, t), w, c)], t, c + 1)
  {
    FeatureAt(r, tb, audio, nbFrames, w, t, c);
    hide Features, Cepstrum, FrameOf;
    FillOne(nbFrames * tb.nbCep, Features(r, tb, audio, nbFrames, w), was, out, t * tb.nbCep + c);
  }

  lemma FrameEmitted<E>(r: Ring<E>, tb: Tables<E>, audio: seq<E>, nbFrames: nat, w: Pair<E>, was: seq<E>, out: seq<E>,
                        t: nat)
    requires Emitted(r, tb, audio, nbFrames, w, was, out, t, tb.nbCep)
    ensures Emitted(r, tb, audio, nbFrames, w, was, out, t + 1, 0)
  {
    Distribute(t, 1, tb.nbCep);
  }

  lemma NothingEmitted<E>(r: Ring<E>, tb: Tables<E>, audio: seq<E>, nbFrames: nat, w: Pair<E>, was: seq<E>)
    requires nbFrames * tb.nbCep <= |was|
    ensures Emitted(r, tb, audio, nbFrames, w, was, was, 0, 0)
  {
  }

  /** The whole result, and what was behind it. */
  ghost predicate HoldsFeatures<E>(r: Ring<E>, tb: Tables<E>, audio: seq<E>, nbFrames: nat, w: Pair<E>, out: seq<E>,
                                   was: seq<E>) {
    && |out| == |was| && nbFrames * tb.nbCep <= |out| && out[nbFrames * tb.nbCep..] == was[nbFrames * tb.nbCep..]
    && forall t: nat, c: nat :: t < nbFrames && c < tb.nbCep ==> HoldsCepstrum(r, tb, audio, w, out, t, c)
  }

  ghost predicate HoldsCepstrum<E>(r: Ring<E>, tb: Tables<E>, audio: seq<E>, w: Pair<E>, out: seq<E>, t: nat, c: nat) {
    t * tb.nbCep + c < |out| && out[t * tb.nbCep + c] == Cepstrum(r, tb, FrameOf(r, tb, audio, t), w, c)
  }

  lemma AllEmitted<E>(r: Ring<E>, tb: Tables<E>, audio: seq<E>, nbFrames: nat, w: Pair<E>, was: seq<E>, out: seq<E>)
    requires Emitted(r, tb, audio, nbFrames, w, was, out, nbFrames, 0)
    ensures HoldsFeatures(r, tb, audio, nbFrames, w, out, was)
  {
    hide Features, Cepstrum, FrameOf;
    forall t: nat, c: nat | t < nbFrames && c < tb.nbCep ensures HoldsCepstrum(r, tb, audio, w, out, t, c) {
      FeatureAt(r, tb, audio, nbFrames, w, t, c);
    }
  }

  /* ---- The part both kernels share ---- */

  ghost predicate HoldsPower<E>(r: Ring<E>, x: seq<Pair<E>>, w: Pair<E>, re: seq<E>, n: nat) {
    n <= |re| && forall b: nat :: b < n ==> re[b] == Power(r, x, w, b)
  }

  /** Window and zero-pad. */
  method LoadFrame<E>(r: Ring<E>, tb: Tables<E>, audio: seq<E>, t: nat, re: array<E>, im: array<E>)
    requires re != im && re.Length == im.Length == tb.FftLen()
    requires tb.frameLen <= |tb.window| && tb.frameLen <= tb.FftLen() && t * tb.hop + tb.frameLen <= |audio|
    modifies re, im
    ensures Held(re, im) == FrameOf(r, tb, audio, t)
  {
    hide Tables.FftLen;
    var n := re.Length;
    var at := t * tb.hop;
    var i := 0;
    while i < tb.frameLen
      invariant i <= tb.frameLen
      invariant forall k: nat :: k < i ==> re[k] == r.mul(audio[at + k], tb.window[k]) && im[k] == r.zero
    {
      re[i] := r.mul(audio[at + i], tb.window[i]);
      im[i] := r.zero;
      i := i + 1;
    }
    while i < n
      invariant tb.frameLen <= i <= n
      invariant forall k: nat :: k < i ==>
        re[k] == (if k < tb.frameLen then r.mul(audio[at + k], tb.window[k]) else r.zero) && im[k] == r.zero
    {
      re[i] := r.zero;
      im[i] := r.zero;
      i := i + 1;
    }
    FrameIs(r, tb, audio, t, Held(re, im));
  }

  lemma FrameIs<E>(r: Ring<E>, tb: Tables<E>, audio: seq<E>, t: nat, z: seq<Pair<E>>)
    requires |z| == tb.FftLen() && tb.frameLen <= |tb.window| && t * tb.hop + tb.frameLen <= |audio|
    requires forall k: nat :: k < |z| ==>
               z[k] == Pair(if k < tb.frameLen then r.mul(audio[t * tb.hop + k], tb.window[k]) else r.zero, r.zero)
    ensures z == FrameOf(r, tb, audio, t)
  {
    forall k: nat | k < |z| ensures z[k] == FrameOf(r, tb, audio, t)[k] {
      if k < tb.frameLen {
        assert Element(r, audio)(t * tb.hop + k) == audio[t * tb.hop + k] && Element(r, tb.window)(k) == tb.window[k];
      }
    }
  }

  /** The power spectrum, over the first half, written back over `re`. */
  method PowerSpectrum<E>(r: Ring<E>, re: array<E>, im: array<E>, ghost x: seq<Pair<E>>, ghost w: Pair<E>, nbBins: nat)
    requires re != im && re.Length == im.Length && nbBins <= re.Length
    requires forall k: nat :: k < re.Length ==> Held(re, im)[k] == Dft(Pairs(r), x, w, k)
    modifies re
    ensures HoldsPower(r, x, w, re[..], nbBins)
  {
    hide Dft, Pairs;
    var b := 0;
    while b < nbBins
      invariant b <= nbBins
      invariant forall k: nat :: b <= k < re.Length ==> Held(re, im)[k] == Dft(Pairs(r), x, w, k)
      invariant forall k: nat :: k < b ==> re[k] == Power(r, x, w, k)
    {
      assert Held(re, im)[b] == Pair(re[b], im[b]);
      re[b] := r.add(r.mul(re[b], re[b]), r.mul(im[b], im[b]));
      b := b + 1;
    }
  }

  method Spectrum<E(!new)>(r: Ring<E>, tb: Tables<E>, audio: seq<E>, t: nat, re: array<E>, im: array<E>,
                           ghost w: Pair<E>)
    requires Lawful(r) && Valid(r, tb, w) && re != im && re.Length == im.Length == tb.FftLen()
    requires t * tb.hop + tb.frameLen <= |audio|
    modifies re, im
    ensures HoldsPower(r, FrameOf(r, tb, audio, t), w, re[..], tb.FftLen() / 2 + 1)
  {
    BinsFit(tb.log);
    LoadFrame(r, tb, audio, t, re, im);
    hide FrameOf, Lawful, Table, HalfTurn, Pairs, Dft, HoldsPower;
    ghost var x := FrameOf(r, tb, audio, t);
    FftRadix2(r, re, im, tb.twiddles, w, tb.log);
    PowerSpectrum(r, re, im, x, w, re.Length / 2 + 1);
  }

  lemma BinsFit(log: nat)
    ensures log > 0 ==> Pow2(log) / 2 + 1 <= Pow2(log)
    ensures Pow2(log) / 2 + 1 <= Pow2(log)
  {
    if log == 0 { assert Pow2(0) == 1; }
  }

  /* ---- The portable reductions ---- */

  ghost predicate HoldsMel<E>(r: Ring<E>, tb: Tables<E>, x: seq<Pair<E>>, w: Pair<E>, mel: seq<E>, n: nat) {
    && n <= |mel| && n <= |tb.melStart| && n <= |tb.melLen|
    && forall m: nat :: m < n ==> mel[m] == tb.floorLog(MelEnergy(r, tb, x, w, m))
  }

  /** What one turn of a band's loop adds. */
  lemma MelTermIs<E>(r: Ring<E>, tb: Tables<E>, x: seq<Pair<E>>, w: Pair<E>, re: seq<E>, n: nat, m: nat, i: nat)
    requires m < |tb.melStart| && m < |tb.melLen| && HoldsPower(r, x, w, re, n)
    requires tb.melStart[m] + i < n && MelOffset(tb.melLen, m) + i < |tb.melCoeff|
    ensures n <= |re| && MelTerm(r, tb, x, w, m)(i) ==
              r.mul(re[tb.melStart[m] + i], tb.melCoeff[MelOffset(tb.melLen, m) + i])
  {
    hide Power, MelOffset;
    var p, e := Power(r, x, w, tb.melStart[m] + i), Element(r, tb.melCoeff)(MelOffset(tb.melLen, m) + i);
    assert MelTerm(r, tb, x, w, m)(i) == r.mul(p, e);
  }

  lemma MelTermAt<E>(r: Ring<E>, tb: Tables<E>, x: seq<Pair<E>>, w: Pair<E>, re: seq<E>, m: nat, i: nat)
    requires Valid(r, tb, w) && m < tb.nbMel && i < tb.melLen[m] && HoldsPower(r, x, w, re, tb.FftLen() / 2 + 1)
    ensures tb.melStart[m] + i < |re| && MelOffset(tb.melLen, m) + i < |tb.melCoeff|
    ensures MelTerm(r, tb, x, w, m)(i) == r.mul(re[tb.melStart[m] + i], tb.melCoeff[MelOffset(tb.melLen, m) + i])
  {
    MelOffsetGrows(tb.melLen, m, tb.nbMel);
    hide MelTerm, Tables.FftLen, MelOffset;
    MelTermIs(r, tb, x, w, re, tb.FftLen() / 2 + 1, m, i);
  }

  method MelBands<E>(r: Ring<E>, tb: Tables<E>, re: array<E>, mel: array<E>, ghost x: seq<Pair<E>>, ghost w: Pair<E>)
    requires Valid(r, tb, w) && re != mel && mel.Length == tb.nbMel && HoldsPower(r, x, w, re[..], tb.FftLen() / 2 + 1)
    modifies mel
    ensures HoldsMel(r, tb, x, w, mel[..], tb.nbMel)
  {
    hide HoldsPower, MelEnergy, MelTerm, Tables.FftLen;
    ghost var power := re[..];
    var off, m := 0, 0;
    while m < tb.nbMel
      invariant m <= tb.nbMel && off == MelOffset(tb.melLen, m) && re[..] == power
      invariant HoldsMel(r, tb, x, w, mel[..], m)
    {
      var acc := MelBand(r, tb, re, x, w, m, off);
      off := off + tb.melLen[m];
      mel[m] := tb.floorLog(acc);
      m := m + 1;
    }
  }

  /** One band, left to right. */
  method MelBand<E>(r: Ring<E>, tb: Tables<E>, re: array<E>, ghost x: seq<Pair<E>>, ghost w: Pair<E>, m: nat, off: nat)
    returns (acc: E)
    requires Valid(r, tb, w) && m < tb.nbMel && HoldsPower(r, x, w, re[..], tb.FftLen() / 2 + 1)
    requires off == MelOffset(tb.melLen, m)
    ensures acc == MelEnergy(r, tb, x, w, m)
  {
    hide HoldsPower, MelTerm, Tables.FftLen;
    acc := r.zero;
    var i := 0;
    while i < tb.melLen[m]
      invariant i <= tb.melLen[m] && acc == Sum(r, MelTerm(r, tb, x, w, m), i)
    {
      MelTermAt(r, tb, x, w, re[..], m, i);
      acc := r.add(acc, r.mul(re[tb.melStart[m] + i], tb.melCoeff[off + i]));
      i := i + 1;
    }
  }

  lemma CepTermIs<E>(r: Ring<E>, tb: Tables<E>, x: seq<Pair<E>>, w: Pair<E>, c: nat, m: nat)
    requires m < |tb.melStart| && m < |tb.melLen| && c * tb.nbMel + m < |tb.dct|
    ensures CepTerm(r, tb, x, w, c)(m) == r.mul(tb.dct[c * tb.nbMel + m], tb.floorLog(MelEnergy(r, tb, x, w, m)))
  {
    hide MelEnergy;
    var d := Element(r, tb.dct)(c * tb.nbMel + m);
    assert CepTerm(r, tb, x, w, c)(m) == r.mul(d, tb.floorLog(MelEnergy(r, tb, x, w, m)));
  }

  lemma CepTermAt<E>(r: Ring<E>, tb: Tables<E>, x: seq<Pair<E>>, w: Pair<E>, mel: seq<E>, c: nat, m: nat)
    requires Valid(r, tb, w) && c < tb.nbCep && m < tb.nbMel && HoldsMel(r, tb, x, w, mel, tb.nbMel)
    ensures c * tb.nbMel + m < |tb.dct|
    ensures CepTerm(r, tb, x, w, c)(m) == r.mul(tb.dct[c * tb.nbMel + m], mel[m])
  {
    MulStep(c, tb.nbCep, tb.nbMel);
    hide MelEnergy, CepTerm;
    CepTermIs(r, tb, x, w, c, m);
  }

  /** One cepstrum, left to right. */
  method CepstrumOf<E>(r: Ring<E>, tb: Tables<E>, mel: array<E>, ghost x: seq<Pair<E>>, ghost w: Pair<E>, c: nat)
    returns (acc: E)
    requires Valid(r, tb, w) && c < tb.nbCep && HoldsMel(r, tb, x, w, mel[..], tb.nbMel)
    ensures acc == Cepstrum(r, tb, x, w, c)
  {
    hide HoldsMel, CepTerm, Tables.FftLen, Valid;
    assert tb.nbMel <= mel.Length by { MelFits(r, tb, x, w, mel[..]); }
    acc := r.zero;
    var m := 0;
    while m < tb.nbMel
      invariant m <= tb.nbMel && acc == Sum(r, CepTerm(r, tb, x, w, c), m)
    {
      CepTermAt(r, tb, x, w, mel[..], c, m);
      acc := r.add(acc, r.mul(tb.dct[c * tb.nbMel + m], mel[m]));
      m := m + 1;
    }
  }

  lemma MelFits<E>(r: Ring<E>, tb: Tables<E>, x: seq<Pair<E>>, w: Pair<E>, mel: seq<E>)
    requires HoldsMel(r, tb, x, w, mel, tb.nbMel)
    ensures tb.nbMel <= |mel|
  {
  }

  /** The cepstra of a frame from number `from` on, into their place in the result. */
  method Cepstra<E>(r: Ring<E>, tb: Tables<E>, ghost audio: seq<E>, ghost nbFrames: nat, t: nat, mel: array<E>,
                    out: array<E>, from: nat,
                    ghost w: Pair<E>, ghost was: seq<E>)
    requires Valid(r, tb, w) && t < nbFrames && mel != out && from <= tb.nbCep
    requires HoldsMel(r, tb, FrameOf(r, tb, audio, t), w, mel[..], tb.nbMel)
    requires Emitted(r, tb, audio, nbFrames, w, was, out[..], t, from)
    modifies out
    ensures Emitted(r, tb, audio, nbFrames, w, was, out[..], t, tb.nbCep)
  {
    ghost var felt := mel[..];
    hide *;
    var c := from;
    while c < tb.nbCep
      invariant c <= tb.nbCep && mel[..] == felt
      invariant Emitted(r, tb, audio, nbFrames, w, was, out[..], t, c)
    {
      EmitCepstrum(r, tb, audio, nbFrames, t, mel, out, c, w, was);
      c := c + 1;
    }
  }

  method EmitCepstrum<E>(r: Ring<E>, tb: Tables<E>, ghost audio: seq<E>, ghost nbFrames: nat, t: nat, mel: array<E>,
                         out: array<E>, c: nat,
                         ghost w: Pair<E>, ghost was: seq<E>)
    requires Valid(r, tb, w) && t < nbFrames && mel != out && c < tb.nbCep
    requires HoldsMel(r, tb, FrameOf(r, tb, audio, t), w, mel[..], tb.nbMel)
    requires Emitted(r, tb, audio, nbFrames, w, was, out[..], t, c)
    modifies out
    ensures Emitted(r, tb, audio, nbFrames, w, was, out[..], t, c + 1)
  {
    hide *;
    var acc := CepstrumOf(r, tb, mel, FrameOf(r, tb, audio, t), w, c);
    EmitOne(r, tb, audio, nbFrames, w, was, out[..], t, c);
    out[t * tb.nbCep + c] := acc;
  }

  /** The portable kernel. */
  method Portable<E(!new)>(r: Ring<E>, tb: Tables<E>, audio: seq<E>, out: array<E>, nbFrames: nat,
                           re: array<E>, im: array<E>, mel: array<E>, ghost w: Pair<E>)
    requires Lawful(r) && Valid(r, tb, w) && Audio(tb, audio, nbFrames)
    requires re != im && re != mel && im != mel && out != re && out != im && out != mel
    requires re.Length == im.Length == tb.FftLen() && mel.Length == tb.nbMel && nbFrames * tb.nbCep <= out.Length
    modifies out, re, im, mel
    ensures HoldsFeatures(r, tb, audio, nbFrames, w, out[..], old(out[..]))
  {
    ghost var was := out[..];
    NothingEmitted(r, tb, audio, nbFrames, w, was);
    var t := 0;
    while t < nbFrames
      invariant t <= nbFrames && Emitted(r, tb, audio, nbFrames, w, was, out[..], t, 0)
    {
      hide HoldsPower, HoldsMel, Emitted, FrameOf, Lawful, Valid;
      ghost var x, sofar := FrameOf(r, tb, audio, t), out[..];
      Spectrum(r, tb, audio, t, re, im, w);
      MelBands(r, tb, re, mel, x, w);
      assert out[..] == sofar;
      Cepstra(r, tb, audio, nbFrames, t, mel, out, 0, w, was);
      FrameEmitted(r, tb, audio, nbFrames, w, was, out[..], t);
      t := t + 1;
    }
    AllEmitted(r, tb, audio, nbFrames, w, was, out[..]);
  }
}
