/**
  Address mapping: the timing engine's `parse_mapping` and `decode` (`targets/hetero/dram_core.hpp`)
  and the address builder of the cross-check, class `Layout` (`tools/dram/xcheck/run.py`). A mapping
  string lists fields most significant first; decoding and building an address undo each other.
 */
module DramMapping {
  import opened Arith
  import opened Options

  datatype Coord = Coord(ch: nat, ra: nat, bg: nat, ba: nat, row: nat, col: nat)

  datatype FieldId = Ro | Ra | Bg | Ba | Co | Ch

  datatype Field = Field(id: FieldId, bits: nat)

  datatype MappingError = OddLength | BadField(at: nat) | Lacks(id: FieldId)

  datatype Parsed = Fields(fields: seq<Field>) | Refused(error: MappingError)

  /** How many values each field takes. */
  datatype Sizes = Sizes(rows: nat, ranks: nat, bankgroups: nat, banks: nat, columns: nat, channels: nat) {
    function Of(id: FieldId): nat {
      match id
      case Ro => rows case Ra => ranks case Bg => bankgroups case Ba => banks case Co => columns case Ch => channels
    }
  }

  const ALL: seq<FieldId> := [Ro, Ra, Bg, Ba, Co, Ch]

  predicate IsPow2(v: int)
    decreases v
  {
    v == 1 || (v > 1 && v % 2 == 0 && IsPow2(v / 2))
  }

  /** Bitwise and. */
  function And(a: nat, b: nat): nat
    decreases a
  {
    if a == 0 || b == 0 then 0 else (if a % 2 == b % 2 == 1 then 1 else 0) + 2 * And(a / 2, b / 2)
  }

  lemma {:induction false} AndSelf(a: nat)
    ensures And(a, a) == a
  {
    if a > 0 { AndSelf(a / 2); }
  }

  lemma {:induction false} AndAtMost(a: nat, b: nat)
    ensures And(a, b) <= a && And(a, b) <= b
    decreases a
  {
    if a > 0 && b > 0 { AndAtMost(a / 2, b / 2); }
  }

  /** The test of `check_pow2`: `v & (v - 1)` is zero exactly for powers of two. */
  lemma {:induction false} PowerOfTwoTest(v: nat)
    requires v > 0
    ensures And(v, v - 1) == 0 <==> IsPow2(v)
  {
    if v % 2 == 0 {
      PowerOfTwoTest(v / 2);
      assert (v - 1) / 2 == v / 2 - 1;
    } else if v > 1 {
      assert (v - 1) / 2 == v / 2;
      AndSelf(v / 2);
    }
  }

  /** Masking with a power of two less one is the remainder: fields are cut off, requests aligned, this way. */
  lemma {:induction false} MaskIsRemainder(a: nat, m: nat)
    requires IsPow2(m)
    ensures And(a, m - 1) == a % m
    decreases m
  {
    if m > 1 {
      MaskIsRemainder(a / 2, m / 2);
      assert (m - 1) / 2 == m / 2 - 1;
      DivMod(a, 2, m / 2);
      assert m / 2 * 2 == m;
    }
  }

  /** `log2i`: the loop stops at the first power of two that reaches `v`. */
  method Log2(v: nat) returns (b: nat)
    ensures v <= Pow2(b)
    ensures b > 0 ==> Pow2(b - 1) < v
    ensures b == CeilLog2(v)
  {
    b := 0;
    while Pow2(b) < v
      invariant b > 0 ==> Pow2(b - 1) < v
      decreases v - Pow2(b)
    {
      b := b + 1;
    }
    CeilLog2Unique(v, b);
  }

  /** On a power of two the logarithm is exact. */
  lemma {:induction false} ExactLog2(v: nat)
    requires IsPow2(v)
    ensures Pow2(CeilLog2(v)) == v
  {
    if v > 1 {
      ExactLog2(v / 2);
      assert (v + 1) / 2 == v / 2;
    }
  }

  /** Python's `int.bit_length`. */
  function BitLength(v: nat): nat { if v == 0 then 0 else 1 + BitLength(v / 2) }

  /** `Layout` sizes a field by `(size - 1).bit_length()`: the engine's `log2i` of the size. */
  lemma {:induction false} BitLengthIsLog2(size: nat)
    requires size > 0
    ensures BitLength(size - 1) == CeilLog2(size)
  {
    if size > 1 {
      BitLengthIsLog2((size + 1) / 2);
      assert (size + 1) / 2 - 1 == (size - 1) / 2;
    }
  }

  /* ---- Parsing a mapping string ---- */

  function NameOf(id: FieldId): string {
    match id case Ro => "Ro" case Ra => "Ra" case Bg => "Bg" case Ba => "Ba" case Co => "Co" case Ch => "Ch"
  }

  function Token(m: string, i: nat): string
    requires 2 * i + 2 <= |m|
  {
    m[2 * i..2 * i + 2]
  }

  /** The fields a mapping string names, read two letters at a time. */
  ghost predicate Names(m: string, n: nat, ids: seq<FieldId>) {
    && |ids| == n && 2 * n <= |m|
    && forall i :: 0 <= i < n ==> Token(m, i) == NameOf(ids[i])
  }

  ghost predicate Distinct(fields: seq<Field>) {
    forall i, j :: 0 <= i < j < |fields| ==> fields[i].id != fields[j].id
  }

  ghost predicate Carries(fields: seq<Field>, id: FieldId) {
    exists i :: 0 <= i < |fields| && fields[i].id == id
  }

  function Ids(fields: seq<Field>): seq<FieldId> { seq(|fields|, i requires 0 <= i < |fields| => fields[i].id) }

  /** A mapping the engine accepts: known fields, none twice, every field of more than one value present. */
  ghost predicate Accepts(m: string, sizes: Sizes, fields: seq<Field>)
  {
    && |m| % 2 == 0
    && Names(m, |m| / 2, Ids(fields))
    && Distinct(fields)
    && (forall i :: 0 <= i < |fields| ==> fields[i].bits == CeilLog2(sizes.Of(fields[i].id)))
    && (forall id: FieldId :: sizes.Of(id) > 1 ==> Carries(fields, id))
  }

  method FindName(tok: string) returns (r: Option<FieldId>)
    ensures r.Some? ==> tok == NameOf(r.value)
    ensures r.None? ==> forall id: FieldId :: tok != NameOf(id)
  {
    r := None;
    for j := 0 to 6
      invariant r.Some? ==> tok == NameOf(r.value)
      invariant r.None? ==> forall i :: 0 <= i < j ==> tok != NameOf(ALL[i])
    {
      if tok == NameOf(ALL[j]) { r := Some(ALL[j]); }
    }
    if r.None? {
      forall id: FieldId ensures tok != NameOf(id) {
        var i := match id case Ro => 0 case Ra => 1 case Bg => 2 case Ba => 3 case Co => 4 case Ch => 5;
        assert ALL[i] == id;
      }
    }
  }

  lemma NamesDiffer(a: FieldId, b: FieldId)
    requires NameOf(a) == NameOf(b)
    ensures a == b
  {
    assert NameOf(a)[0] == NameOf(b)[0] && NameOf(a)[1] == NameOf(b)[1];
  }

  /** Reading one more field. */
  lemma NamesOneMore(m: string, n: nat, fields: seq<Field>, f: Field)
    requires |fields| == n && Names(m, n, Ids(fields)) && 2 * n + 2 <= |m| && Token(m, n) == NameOf(f.id)
    ensures Names(m, n + 1, Ids(fields + [f]))
    ensures forall id :: Carries(fields + [f], id) <==> Carries(fields, id) || id == f.id
  {
    forall id ensures Carries(fields + [f], id) <==> Carries(fields, id) || id == f.id {
      if id == f.id { assert (fields + [f])[n].id == id; }
      if Carries(fields, id) {
        var j :| 0 <= j < n && fields[j].id == id;
        assert (fields + [f])[j].id == id;
      }
    }
  }

  /** Accepts a mapping string exactly when it is one the engine can use, and reads its fields in order. */
  method ParseMapping(m: string, sizes: Sizes) returns (r: Parsed)
    ensures r.Fields? ==> Accepts(m, sizes, r.fields)
    ensures r.Refused? ==> forall fields: seq<Field> :: !Accepts(m, sizes, fields)
  {
    if |m| % 2 != 0 {
      return Refused(OddLength);
    }
    var fields: seq<Field> := [];
    var seen: set<FieldId> := {};
    var i := 0;
    while i < |m|
      invariant 0 <= i <= |m| && i % 2 == 0
      invariant Names(m, i / 2, Ids(fields)) && |fields| == i / 2
      invariant Distinct(fields)
      invariant forall j :: 0 <= j < |fields| ==> fields[j].bits == CeilLog2(sizes.Of(fields[j].id))
      invariant forall id :: id in seen <==> Carries(fields, id)
    {
      var tok := m[i..i + 2];
      assert tok == Token(m, i / 2);
      var k := FindName(tok);
      if k.None? || k.value in seen {
        if k.None? {
          UnknownField(m, sizes, fields, i / 2);
        } else {
          RepeatedField(m, sizes, fields, i / 2, k.value);
        }
        return Refused(BadField(i));
      }
      var bits := Log2(sizes.Of(k.value));
      NamesOneMore(m, i / 2, fields, Field(k.value, bits));
      seen := seen + {k.value};
      fields := fields + [Field(k.value, bits)];
      i := i + 2;
    }
    for j := 0 to 6
      invariant forall n :: 0 <= n < j ==> sizes.Of(ALL[n]) > 1 ==> ALL[n] in seen
    {
      if ALL[j] !in seen && sizes.Of(ALL[j]) > 1 {
        MissingField(m, sizes, fields, ALL[j]);
        return Refused(Lacks(ALL[j]));
      }
    }
    forall id: FieldId | sizes.Of(id) > 1 ensures Carries(fields, id) {
      var n := match id case Ro => 0 case Ra => 1 case Bg => 2 case Ba => 3 case Co => 4 case Ch => 5;
      assert ALL[n] == id;
    }
    return Fields(fields);
  }

  /** Two readings of one string agree. */
  lemma NamesUnique(m: string, n: nat, a: seq<FieldId>, k: nat, b: seq<FieldId>)
    requires Names(m, n, a) && Names(m, k, b) && n <= k
    ensures a == b[..n]
  {
    forall i | 0 <= i < n ensures a[i] == b[i] {
      assert Token(m, i) == NameOf(a[i]) == NameOf(b[i]);
      NamesDiffer(a[i], b[i]);
    }
  }

  /** Any reading of the string has the field of token `n` at `n`, and the fields read so far before it. */
  lemma Rereads(m: string, ids: seq<FieldId>, n: nat, fs: seq<Field>)
    requires Names(m, n, ids) && Names(m, |m| / 2, Ids(fs)) && n <= |m| / 2
    ensures forall j :: 0 <= j < n ==> fs[j].id == ids[j]
    ensures n < |m| / 2 ==> Token(m, n) == NameOf(fs[n].id)
  {
    NamesUnique(m, n, ids, |m| / 2, Ids(fs));
    forall j | 0 <= j < n ensures fs[j].id == ids[j] { assert Ids(fs)[j] == fs[j].id; }
    if n < |m| / 2 { assert Ids(fs)[n] == fs[n].id; }
  }

  lemma RepeatedField(m: string, sizes: Sizes, fields: seq<Field>, n: nat, id: FieldId)
    requires |m| % 2 == 0 && 2 * n + 2 <= |m| && |fields| == n && Names(m, n, Ids(fields))
    requires Token(m, n) == NameOf(id) && Carries(fields, id)
    ensures forall fs: seq<Field> :: !Accepts(m, sizes, fs)
  {
    var j :| 0 <= j < |fields| && fields[j].id == id;
    assert Ids(fields)[j] == id;
    forall fs: seq<Field> ensures !Accepts(m, sizes, fs) {
      if Names(m, |m| / 2, Ids(fs)) {
        Rereads(m, Ids(fields), n, fs);
        NamesDiffer(fs[n].id, id);
      }
    }
  }

  lemma UnknownField(m: string, sizes: Sizes, fields: seq<Field>, n: nat)
    requires |m| % 2 == 0 && 2 * n + 2 <= |m| && |fields| == n && Names(m, n, Ids(fields))
    requires forall id: FieldId :: Token(m, n) != NameOf(id)
    ensures forall fs: seq<Field> :: !Accepts(m, sizes, fs)
  {
    forall fs: seq<Field> ensures !Accepts(m, sizes, fs) {
      if Names(m, |m| / 2, Ids(fs)) { Rereads(m, Ids(fields), n, fs); }
    }
  }

  lemma MissingField(m: string, sizes: Sizes, fields: seq<Field>, id: FieldId)
    requires |m| % 2 == 0 && |fields| == |m| / 2 && Names(m, |m| / 2, Ids(fields))
    requires sizes.Of(id) > 1 && !Carries(fields, id)
    ensures forall fs: seq<Field> :: !Accepts(m, sizes, fs)
  {
    forall fs: seq<Field> ensures !Accepts(m, sizes, fs) {
      if Names(m, |m| / 2, Ids(fs)) {
        Rereads(m, Ids(fields), |m| / 2, fs);
        forall j | 0 <= j < |fs| ensures fs[j].id != id {
          assert fs[j].id == Ids(fields)[j] == fields[j].id;
        }
      }
    }
  }

  /* ---- Decoding and building addresses ---- */

  function Get(c: Coord, id: FieldId): nat {
    match id case Ro => c.row case Ra => c.ra case Bg => c.bg case Ba => c.ba case Co => c.col case Ch => c.ch
  }

  function Put(c: Coord, id: FieldId, v: nat): Coord {
    match id
    case Ro => c.(row := v) case Ra => c.(ra := v) case Bg => c.(bg := v)
    case Ba => c.(ba := v) case Co => c.(col := v) case Ch => c.(ch := v)
  }

  const ORIGIN: Coord := Coord(0, 0, 0, 0, 0, 0)

  /** The field of `bits` bits at the low end of `a`, and what is left above it. */
  function Digit(a: nat, bits: nat): nat { a % Pow2(bits) }

  function Rest(a: nat, bits: nat): nat {
    DivNonNegative(a, Pow2(bits));
    a / Pow2(bits)
  }

  /** Peels the fields of burst index `a` off, least significant first, onto `c`. */
  function DecodeOnto(fields: seq<Field>, a: nat, c: Coord): Coord {
    if fields == [] then c
    else
      var f := fields[|fields| - 1];
      DecodeOnto(fields[..|fields| - 1], Rest(a, f.bits), Put(c, f.id, Digit(a, f.bits)))
  }

  /** Coordinates of a burst index. */
  function Decode(fields: seq<Field>, a: nat): Coord { DecodeOnto(fields, a, ORIGIN) }

  lemma DecodePeel(fields: seq<Field>, n: nat, a: nat, c: Coord)
    requires 0 < n <= |fields|
    ensures var f := fields[n - 1];
            DecodeOnto(fields[..n], a, c) == DecodeOnto(fields[..n - 1], Rest(a, f.bits),
                                                        Put(c, f.id, Digit(a, f.bits)))
  {
    assert fields[..n][..n - 1] == fields[..n - 1];
  }

  /** The loop of `decode`. */
  method DecodeLoop(fields: seq<Field>, index: nat) returns (c: Coord)
    ensures c == Decode(fields, index)
  {
    c := ORIGIN;
    var a: nat, n := index, |fields|;
    assert fields[..n] == fields;
    while n > 0
      invariant 0 <= n <= |fields|
      invariant DecodeOnto(fields[..n], a, c) == Decode(fields, index)
    {
      var f := fields[n - 1];
      DecodePeel(fields, n, a, c);
      c := Put(c, f.id, Digit(a, f.bits));
      a := Rest(a, f.bits);
      n := n - 1;
    }
  }

  /** Burst index built from field values, each cut to its width. */
  function Encode(fields: seq<Field>, c: Coord): nat {
    if fields == [] then 0
    else
      var f := fields[|fields| - 1];
      Encode(fields[..|fields| - 1], c) * Pow2(f.bits) + Get(c, f.id) % Pow2(f.bits)
  }

  /** The loop of `Layout.addr`, most significant field first; the result is a byte address. */
  method Address(fields: seq<Field>, c: Coord, burstBytes: nat) returns (addr: nat)
    ensures addr == Encode(fields, c) * burstBytes
  {
    var a, i := 0, 0;
    while i < |fields|
      invariant 0 <= i <= |fields| && a == Encode(fields[..i], c)
    {
      assert fields[..i + 1][..i] == fields[..i];
      a := a * Pow2(fields[i].bits) + Get(c, fields[i].id) % Pow2(fields[i].bits);
      i := i + 1;
    }
    assert fields[..i] == fields;
    addr := a * burstBytes;
  }

  /** Bursts the mapping tells apart. */
  function Capacity(fields: seq<Field>): (n: nat)
    ensures n > 0
  {
    if fields == [] then 1
    else
      MulPositive(Capacity(fields[..|fields| - 1]), Pow2(fields[|fields| - 1].bits));
      Capacity(fields[..|fields| - 1]) * Pow2(fields[|fields| - 1].bits)
  }

  /** Every present field is within its width, every absent one as it was. */
  lemma {:induction false} DecodeOntoFields(fields: seq<Field>, a: nat, c: Coord, id: FieldId)
    requires Distinct(fields)
    ensures var v := Get(DecodeOnto(fields, a, c), id);
            if Carries(fields, id) then exists i :: 0 <= i < |fields| && fields[i].id == id && v < Pow2(fields[i].bits)
            else v == Get(c, id)
  {
    if fields != [] {
      var n := |fields| - 1;
      var f, front := fields[n], fields[..n];
      var c' := Put(c, f.id, Digit(a, f.bits));
      DecodeOntoFields(front, Rest(a, f.bits), c', id);
      if Carries(front, id) {
        var i :| 0 <= i < |front| && front[i].id == id && Get(DecodeOnto(fields, a, c), id) < Pow2(front[i].bits);
        assert fields[i] == front[i];
      } else if id == f.id {
        assert fields[n].id == id;
      } else {
        forall i | 0 <= i < |fields| ensures fields[i].id != id {
          if i < n { assert fields[i] == front[i]; }
        }
      }
    }
  }

  /** Decoded coordinates are in range of the geometry the mapping was built for. */
  lemma DecodeInRange(m: string, sizes: Sizes, fields: seq<Field>, a: nat, id: FieldId)
    requires forall x: FieldId :: IsPow2(sizes.Of(x))
    requires Accepts(m, sizes, fields)
    ensures Get(Decode(fields, a), id) < sizes.Of(id)
  {
    DecodeOntoFields(fields, a, ORIGIN, id);
    if Carries(fields, id) { ExactLog2(sizes.Of(id)); }
  }

  /** Building the address of decoded coordinates gives the burst back, modulo the capacity. */
  lemma {:induction false} EncodeDecode(fields: seq<Field>, a: nat, c: Coord)
    requires Distinct(fields)
    ensures Encode(fields, DecodeOnto(fields, a, c)) == a % Capacity(fields)
  {
    if fields != [] {
      var n := |fields| - 1;
      var f, front := fields[n], fields[..n];
      var w := Pow2(f.bits);
      EncodeDecode(front, Rest(a, f.bits), Put(c, f.id, Digit(a, f.bits)));
      LastFieldLands(fields, a, c);
      var x := DecodeOnto(fields, a, c);
      assert Encode(front, x) == (a / w) % Capacity(front);
      assert Get(x, f.id) % w == a % w by { Digits(a % w, w, 0, a % w); }
      DivMod(a, w, Capacity(front));
    }
  }

  /** The least significant field holds its digit of the index. */
  lemma LastFieldLands(fields: seq<Field>, a: nat, c: Coord)
    requires Distinct(fields) && fields != []
    ensures Get(DecodeOnto(fields, a, c), fields[|fields| - 1].id) == a % Pow2(fields[|fields| - 1].bits)
  {
    var n := |fields| - 1;
    var f, front := fields[n], fields[..n];
    DecodeOntoFields(front, Rest(a, f.bits), Put(c, f.id, Digit(a, f.bits)), f.id);
  }

  /** Decoding the address of coordinates gives them back, field by field, cut to their width. */
  lemma {:induction false} DecodeEncode(fields: seq<Field>, x: Coord, c: Coord, id: FieldId)
    requires Distinct(fields)
    ensures var v := Get(DecodeOnto(fields, Encode(fields, x), c), id);
            if Carries(fields, id) then exists i :: 0 <= i < |fields| && fields[i].id == id &&
                                                    v == Digit(Get(x, id), fields[i].bits)
            else v == Get(c, id)
  {
    if fields != [] {
      var n := |fields| - 1;
      var f, front := fields[n], fields[..n];
      var d := Digit(Get(x, f.id), f.bits);
      EncodePeel(fields, x);
      var c' := Put(c, f.id, d);
      DecodeEncode(front, x, c', id);
      if Carries(front, id) {
        var i :| 0 <= i < n && front[i].id == id &&
          Get(DecodeOnto(front, Encode(front, x), c'), id) == Digit(Get(x, id), front[i].bits);
        assert fields[i] == front[i];
      } else if id == f.id {
        assert fields[n].id == id;
      } else {
        forall i | 0 <= i < |fields| ensures fields[i].id != id {
          if i < n { assert fields[i] == front[i]; }
        }
      }
    }
  }

  lemma EncodePeel(fields: seq<Field>, x: Coord)
    requires fields != []
    ensures var f := fields[|fields| - 1];
            && Digit(Encode(fields, x), f.bits) == Digit(Get(x, f.id), f.bits)
            && Rest(Encode(fields, x), f.bits) == Encode(fields[..|fields| - 1], x)
  {
    var f := fields[|fields| - 1];
    Digits(Encode(fields, x), Pow2(f.bits), Encode(fields[..|fields| - 1], x), Get(x, f.id) % Pow2(f.bits));
  }

  /** Does every coordinate fit the field that carries it, and is it zero where no field does? */
  ghost predicate Fits(fields: seq<Field>, x: Coord) {
    forall id :: if Carries(fields, id) then forall i :: 0 <= i < |fields| && fields[i].id == id ==>
      Get(x, id) < Pow2(fields[i].bits)
                 else Get(x, id) == 0
  }

  /**
    `decode` and `Layout.addr` are inverse: coordinates in range come back from their address,
    every burst index below the capacity comes back from its coordinates, and above the capacity
    decoding repeats.
   */
  lemma DecodeAndAddressInverse(fields: seq<Field>, x: Coord, a: nat)
    requires Distinct(fields)
    ensures Fits(fields, x) ==> Decode(fields, Encode(fields, x)) == x
    ensures Encode(fields, x) < Capacity(fields)
    ensures a < Capacity(fields) ==> Encode(fields, Decode(fields, a)) == a
    ensures Fits(fields, Decode(fields, a))
    ensures Decode(fields, a % Capacity(fields)) == Decode(fields, a)
  {
    EncodeDecode(fields, a, ORIGIN);
    EncodeBelow(fields, x);
    if a < Capacity(fields) { Digits(a, Capacity(fields), 0, a); }
    FitsDecode(fields, a);
    if Fits(fields, x) { RoundTrip(fields, x); }
    RoundTrip(fields, Decode(fields, a));
  }

  lemma RoundTrip(fields: seq<Field>, x: Coord)
    requires Distinct(fields) && Fits(fields, x)
    ensures Decode(fields, Encode(fields, x)) == x
  {
    var y := Decode(fields, Encode(fields, x));
    forall id: FieldId ensures Get(y, id) == Get(x, id) {
      DecodeEncode(fields, x, ORIGIN, id);
      if Carries(fields, id) {
        var i :| 0 <= i < |fields| && fields[i].id == id && Get(y, id) == Digit(Get(x, id), fields[i].bits);
        Digits(Get(x, id), Pow2(fields[i].bits), 0, Get(x, id));
      }
    }
    assert Get(y, Ro) == Get(x, Ro) && Get(y, Ra) == Get(x, Ra) && Get(y, Bg) == Get(x, Bg);
    assert Get(y, Ba) == Get(x, Ba) && Get(y, Co) == Get(x, Co) && Get(y, Ch) == Get(x, Ch);
  }

  lemma FitsDecode(fields: seq<Field>, a: nat)
    requires Distinct(fields)
    ensures Fits(fields, Decode(fields, a))
  {
    forall id
      ensures Carries(fields, id) ==> forall i :: 0 <= i < |fields| && fields[i].id == id ==>
                Get(Decode(fields, a), id) < Pow2(fields[i].bits)
      ensures !Carries(fields, id) ==> Get(Decode(fields, a), id) == 0
    {
      DecodeOntoFields(fields, a, ORIGIN, id);
    }
  }

  lemma {:induction false} EncodeBelow(fields: seq<Field>, x: Coord)
    ensures Encode(fields, x) < Capacity(fields)
  {
    if fields != [] {
      var f, front := fields[|fields| - 1], fields[..|fields| - 1];
      EncodeBelow(front, x);
      MulStep(Encode(front, x), Capacity(front), Pow2(f.bits));
    }
  }
}
