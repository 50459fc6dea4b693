/** `convert_bits`: regrouping a list of `from`-bit values into `to`-bit values.

    The reference definition, `Regrouping`, works on plain bit strings; `ConvertBits` is the
    source's accumulator loop, proved to compute it for every pair of widths up to eight. */
module Regroup {
  import Bytes

  datatype Result<T> = Ok(value: T) | InvalidAddressPayload

  type Bits = seq<bool>

  // ---------------------------------------------------------------- bits of numbers, high bit first

  function Pow2(n: nat): (r: nat)
    ensures r > 0
  {
    if n == 0 then 1 else 2 * Pow2(n - 1)
  }

  /** `n << k` */
  function Shl(n: nat, k: nat): nat {
    if k == 0 then n else 2 * Shl(n, k - 1)
  }

  /** `n >> k` */
  function Shr(n: nat, k: nat): nat {
    if k == 0 then n else Shr(n / 2, k - 1)
  }

  /** `n & ((1 << m) - 1)` */
  function Mask(n: nat, m: nat): (r: nat)
    ensures r < Pow2(m)
  {
    if m == 0 then 0 else 2 * Mask(n / 2, m - 1) + n % 2
  }

  function ToBits(v: nat, width: nat): (b: Bits)
    ensures |b| == width
  {
    if width == 0 then [] else ToBits(v / 2, width - 1) + [v % 2 == 1]
  }

  function FromBits(b: Bits): (v: nat)
    ensures v < Pow2(|b|)
  {
    if b == [] then 0 else 2 * FromBits(b[..|b| - 1]) + (if b[|b| - 1] then 1 else 0)
  }

  function Zeros(n: nat): (b: Bits)
    ensures |b| == n && forall i :: 0 <= i < n ==> !b[i]
  {
    seq(n, i => false)
  }

  lemma {:induction false} FromToBits(v: nat, width: nat)
    requires v < Pow2(width)
    ensures FromBits(ToBits(v, width)) == v
  {
    if width > 0 { FromToBits(v / 2, width - 1); }
  }

  lemma LowBit(high: nat, bit: bool)
    ensures var v := 2 * high + (if bit then 1 else 0);
      v / 2 == high && (v % 2 == 1 <==> bit)
  {}

  lemma {:induction false} ToFromBits(b: Bits)
    ensures ToBits(FromBits(b), |b|) == b
  {
    if b != [] {
      ToFromBits(b[..|b| - 1]);
      LowBit(FromBits(b[..|b| - 1]), b[|b| - 1]);
      assert b == b[..|b| - 1] + [b[|b| - 1]];
    }
  }

  lemma {:induction false} ToBitsShiftIn(a: nat, v: nat, k: nat, f: nat)
    requires v < Pow2(f)
    ensures ToBits(Shl(a, f) + v, k + f) == ToBits(a, k) + ToBits(v, f)
    decreases f
  {
    if f > 0 { ToBitsShiftIn(a, v / 2, k, f - 1); }
  }

  lemma {:induction false} ToBitsMasked(n: nat, m: nat, k: nat)
    requires k <= m
    ensures ToBits(Mask(n, m), k) == ToBits(n, k)
    decreases k
  {
    if k > 0 { ToBitsMasked(n / 2, m - 1, k - 1); }
  }

  lemma {:induction false} ToBitsSplit(n: nat, low: nat, high: nat)
    ensures ToBits(n, low + high) == ToBits(Shr(n, low), high) + ToBits(n, low)
    decreases low
  {
    if low > 0 { ToBitsSplit(n / 2, low - 1, high); }
  }

  lemma {:induction false} ZeroBits(v: nat, width: nat)
    requires v < Pow2(width)
    ensures v == 0 <==> true !in ToBits(v, width)
  {
    if width > 0 { ZeroBits(v / 2, width - 1); }
  }

  // ---------------------------------------------------------------- bits of value lists

  /** The bits of a list of values, each `width` bits wide. */
  function Join(values: seq<nat>, width: nat): (b: Bits) {
    if values == [] then [] else ToBits(values[0], width) + Join(values[1..], width)
  }

  ghost predicate Within(values: seq<nat>, width: nat) {
    forall i :: 0 <= i < |values| ==> values[i] < Pow2(width)
  }

  /** The whole `width`-bit groups of a bit string and the bits left over. */
  function Chunks(b: Bits, width: nat): (r: (seq<nat>, Bits))
    requires width > 0
    ensures |r.1| < width && Within(r.0, width)
    decreases |b|
  {
    if |b| < width then ([], b)
    else var (groups, rest) := Chunks(b[width..], width);
      ([FromBits(b[..width])] + groups, rest)
  }

  lemma {:induction false} JoinAppend(a: seq<nat>, b: seq<nat>, width: nat)
    ensures Join(a + b, width) == Join(a, width) + Join(b, width)
  {
    hide ToBits;
    if a == [] {
      assert a + b == b;
    } else {
      JoinAppend(a[1..], b, width);
      assert (a + b)[0] == a[0] && (a + b)[1..] == a[1..] + b;
      Bytes.Associative(ToBits(a[0], width), Join(a[1..], width), Join(b, width));
    }
  }

  lemma {:induction false} JoinSnoc(a: seq<nat>, v: nat, width: nat)
    ensures Join(a + [v], width) == Join(a, width) + ToBits(v, width)
  {
    hide ToBits;
    JoinAppend(a, [v], width);
    assert Join([v], width) == ToBits(v, width) + Join([], width);
  }

  lemma {:induction false} JoinLength(a: seq<nat>, width: nat)
    ensures |Join(a, width)| == |a| * width
  {
    if a != [] { JoinLength(a[1..], width); }
  }

  lemma {:induction false} JoinChunks(b: Bits, width: nat)
    requires width > 0
    ensures Join(Chunks(b, width).0, width) + Chunks(b, width).1 == b
    decreases |b|
  {
    hide ToBits, FromBits, Pow2;
    if |b| >= width {
      JoinChunks(b[width..], width);
      ToFromBits(b[..width]);
      var g, r := Chunks(b[width..], width).0, Chunks(b[width..], width).1;
      assert ([FromBits(b[..width])] + g)[1..] == g;
      assert b == b[..width] + b[width..];
    }
  }

  /** Whole groups and a short rest determine the chunking. */
  lemma {:induction false} ChunksUnique(groups: seq<nat>, rest: Bits, width: nat)
    requires width > 0 && |rest| < width && Within(groups, width)
    ensures Chunks(Join(groups, width) + rest, width) == (groups, rest)
    decreases |groups|
  {
    var b := Join(groups, width) + rest;
    if groups == [] {
      assert b == rest;
    } else {
      assert b == ToBits(groups[0], width) + (Join(groups[1..], width) + rest);
      assert b[..width] == ToBits(groups[0], width);
      assert b[width..] == Join(groups[1..], width) + rest;
      FromToBits(groups[0], width);
      ChunksUnique(groups[1..], rest, width);
      assert [groups[0]] + groups[1..] == groups;
    }
  }

  // ---------------------------------------------------------------- the reference definition

  /** Plain bit regrouping: cut the joined bits into `to`-bit groups; then either fill up the last
      group with zeros, or demand that what is left is shorter than an input group and all zero. */
  ghost function Regrouping(data: seq<nat>, from: nat, to: nat, pad: bool): (r: Result<seq<nat>>)
    requires to > 0
    ensures r.Ok? ==> Within(r.value, to)
  {
    if !Within(data, from) then InvalidAddressPayload
    else
      var (groups, rest) := Chunks(Join(data, from), to);
      if pad then Ok(if rest == [] then groups else groups + [FromBits(rest + Zeros(to - |rest|))])
      else if |rest| >= from || true in rest then InvalidAddressPayload
      else Ok(groups)
  }

  /** The source's loop. The `u32` operations act on naturals: the accumulator stays below
      2^(from + to - 1), so no shift overflows, and OR-ing in a value below 2^from is adding it. */
  method ConvertBits(data: seq<nat>, from: nat, to: nat, pad: bool) returns (r: Result<seq<nat>>)
    requires 1 <= from <= 8 && 1 <= to <= 8
    ensures r == Regrouping(data, from, to, pad)
  {
    hide ToBits, Join, Pow2, Mask, Shl, Shr, Chunks, FromBits, Zeros, Within;
    var accumulator: nat, bits: nat := 0, 0;
    var result: seq<nat> := [];
    NothingYet(data, from, to);
    for i := 0 to |data|
      invariant Within(data[..i], from) && Within(result, to) && bits < to
      invariant Join(result, to) + ToBits(accumulator, bits) == Join(data[..i], from)
    {
      if data[i] >= Pow2(from) {
        NotWithin(data, i, from);
        return InvalidAddressPayload;
      }
      TakeIn(data, i, result, accumulator, bits, from, to);
      accumulator := Mask(Shl(accumulator, from) + data[i], from + to - 1);
      bits := bits + from;
      while bits >= to
        invariant Within(result, to)
        invariant Join(result, to) + ToBits(accumulator, bits) == Join(data[..i + 1], from)
      {
        bits := bits - to;
        EmitGroup(result, accumulator, bits, to);
        result := result + [Mask(Shr(accumulator, bits), to)];
      }
    }
    assert data[..|data|] == data;
    ChunksUnique(result, ToBits(accumulator, bits), to);
    LastGroup(accumulator, bits, to);
    var last := Mask(Shl(accumulator, to - bits), to);
    if pad {
      if bits != 0 {
        result := result + [last];
      }
    } else if bits >= from || last != 0 {
      return InvalidAddressPayload;
    }
    return Ok(result);
  }

  lemma NothingYet(data: seq<nat>, from: nat, to: nat)
    ensures Within(data[..0], from) && Within([], to)
    ensures Join([], to) + ToBits(0, 0) == Join(data[..0], from)
  {}

  lemma NotWithin(data: seq<nat>, i: nat, from: nat)
    requires i < |data| && data[i] >= Pow2(from)
    ensures !Within(data, from)
  {}

  /** Shifting a value in keeps every pending bit: the mask never drops one. */
  lemma TakeIn(data: seq<nat>, i: nat, result: seq<nat>, accumulator: nat, bits: nat, from: nat, to: nat)
    requires i < |data| && data[i] < Pow2(from) && Within(data[..i], from) && bits < to && 1 <= from
    requires Join(result, to) + ToBits(accumulator, bits) == Join(data[..i], from)
    ensures Within(data[..i + 1], from)
    ensures Join(result, to) + ToBits(Mask(Shl(accumulator, from) + data[i], from + to - 1), bits + from)
         == Join(data[..i + 1], from)
  {
    hide ToBits, Join, Mask, Shl, Pow2;
    assert data[..i + 1] == data[..i] + [data[i]];
    JoinSnoc(data[..i], data[i], from);
    ToBitsShiftIn(accumulator, data[i], bits, from);
    ToBitsMasked(Shl(accumulator, from) + data[i], from + to - 1, bits + from);
  }

  /** Emitting a group moves its bits from the accumulator to the result. */
  lemma EmitGroup(result: seq<nat>, accumulator: nat, bits: nat, to: nat)
    requires Within(result, to)
    ensures var group := Mask(Shr(accumulator, bits), to);
      && Within(result + [group], to)
      && Join(result + [group], to) + ToBits(accumulator, bits)
         == Join(result, to) + ToBits(accumulator, bits + to)
  {
    hide ToBits, Join, Mask, Shr, Pow2;
    var group := Mask(Shr(accumulator, bits), to);
    JoinSnoc(result, group, to);
    ToBitsSplit(accumulator, bits, to);
    ToBitsMasked(Shr(accumulator, bits), to, to);
  }

  lemma LastGroup(accumulator: nat, bits: nat, to: nat)
    requires bits < to
    ensures var last := Mask(Shl(accumulator, to - bits), to);
      && last == FromBits(ToBits(accumulator, bits) + Zeros(to - bits))
      && (last == 0 <==> true !in ToBits(accumulator, bits))
  {
    hide Mask, Shl, Pow2;
    var last := Mask(Shl(accumulator, to - bits), to);
    var rest := ToBits(accumulator, bits);
    PowPositive(to - bits);
    ToBitsShiftIn(accumulator, 0, bits, to - bits);
    ToBitsMasked(Shl(accumulator, to - bits), to, to);
    ZeroBits(0, to - bits);
    AllZeros(ToBits(0, to - bits));
    assert ToBits(last, to) == rest + Zeros(to - bits);
    FromToBits(last, to);
    ZeroBits(last, to);
    if true in rest {
      var i :| 0 <= i < |rest| && rest[i];
      assert (rest + Zeros(to - bits))[i];
    }
  }

  lemma PowPositive(n: nat)
    ensures 0 < Pow2(n)
  {}

  // ---------------------------------------------------------------- inverse directions

  /** The unpadded form accepts exactly the images of the padded form, and inverts it: for every
      pair of widths with `narrow` at most `wide`, so padding and grouping are unique. */
  lemma {:induction false} RegroupingInverse(x: seq<nat>, d: seq<nat>, narrow: nat, wide: nat)
    requires 1 <= narrow <= wide
    ensures Regrouping(x, narrow, wide, false) == Ok(d) <==> Regrouping(d, wide, narrow, true) == Ok(x)
  {
    if Regrouping(x, narrow, wide, false) == Ok(d) { PaddedOfUnpadded(x, d, narrow, wide); }
    if Regrouping(d, wide, narrow, true) == Ok(x) { UnpaddedOfPadded(x, d, narrow, wide); }
  }

  /** The padded form only adds zeros, fewer than one group of them. */
  lemma PaddedJoin(d: seq<nat>, from: nat, to: nat) returns (p: nat)
    requires to > 0 && Within(d, from)
    ensures p < to && Regrouping(d, from, to, true).Ok?
    ensures Join(Regrouping(d, from, to, true).value, to) == Join(d, from) + Zeros(p)
  {
    hide ToBits, Join, Chunks, FromBits, Pow2;
    var (g, r) := Chunks(Join(d, from), to);
    p := if r == [] then 0 else to - |r|;
    JoinChunks(Join(d, from), to);
    if r != [] {
      ToFromBits(r + Zeros(p));
      JoinSnoc(g, FromBits(r + Zeros(p)), to);
    }
  }

  lemma {:induction false} UnpaddedOfPadded(x: seq<nat>, d: seq<nat>, narrow: nat, wide: nat)
    requires 1 <= narrow <= wide && Regrouping(d, wide, narrow, true) == Ok(x)
    ensures Regrouping(x, narrow, wide, false) == Ok(d)
  {
    hide ToBits, Join, Chunks, FromBits, Pow2;
    var p := PaddedJoin(d, wide, narrow);
    PaddedWithin(d, wide, narrow);
    ChunksUnique(d, Zeros(p), wide);
  }

  lemma {:induction false} PaddedOfUnpadded(x: seq<nat>, d: seq<nat>, narrow: nat, wide: nat)
    requires 1 <= narrow <= wide && Regrouping(x, narrow, wide, false) == Ok(d)
    ensures Regrouping(d, wide, narrow, true) == Ok(x)
  {
    hide ToBits, Join, Chunks, FromBits, Pow2, Zeros;
    var zeros := Chunks(Join(x, narrow), wide).1;
    var (g, r) := Chunks(Join(d, wide), narrow);
    JoinChunks(Join(x, narrow), wide);
    JoinChunks(Join(d, wide), narrow);
    AllZeros(zeros);
    assert Join(x, narrow) == Join(g, narrow) + (r + zeros);
    ChunksUnique(x, [], narrow);
    assert Join(x, narrow) + [] == Join(x, narrow);
    if r == [] {
      assert r + zeros == zeros;
      ChunksUnique(g, zeros, narrow);
    } else {
      JoinLength(x, narrow);
      JoinLength(g, narrow);
      OneGroup(|x|, |g|, narrow, |r| + |zeros|);
      SnocUnique(x, g, r + zeros, narrow);
    }
  }

  lemma SnocUnique(x: seq<nat>, g: seq<nat>, last: Bits, width: nat)
    requires width > 0 && |last| == width && Within(g, width) && Within(x, width)
    requires Join(x, width) == Join(g, width) + last
    ensures x == g + [FromBits(last)]
  {
    hide ToBits, Join, Chunks, FromBits;
    var v := FromBits(last);
    ToFromBits(last);
    JoinSnoc(g, v, width);
    ChunksUnique(g + [v], [], width);
    ChunksUnique(x, [], width);
  }

  lemma AllZeros(b: Bits)
    requires true !in b
    ensures b == Zeros(|b|)
  {
    forall i | 0 <= i < |b| ensures b[i] == Zeros(|b|)[i] { assert b[i] in b; }
  }

  lemma OneGroup(k: nat, m: nat, width: nat, n: nat)
    requires k * width == m * width + n && 0 < n < 2 * width
    ensures n == width
  {
    MulBounds(k - m, width);
    assert (k - m) * width == n;
  }

  lemma MulBounds(k: int, width: nat)
    ensures k >= 2 ==> k * width >= 2 * width
    ensures k >= 1 ==> k * width >= width
    ensures k <= 0 ==> k * width <= 0
  {
    if k >= 2 { assert (k - 2) * width >= 0; }
    if k >= 1 { assert (k - 1) * width >= 0; }
    if k <= 0 { assert (-k) * width >= 0; }
  }

  lemma PaddedWithin(data: seq<nat>, from: nat, to: nat)
    requires to > 0 && Within(data, from)
    ensures Regrouping(data, from, to, true).Ok?
    ensures Within(Regrouping(data, from, to, true).value, to)
  {}

  // ---------------------------------------------------------------- as numbers

  /** The number whose digits, high digit first, are the values. */
  function Number(values: seq<nat>, width: nat): nat {
    if values == [] then 0 else Number(values[..|values| - 1], width) * Pow2(width) + values[|values| - 1]
  }

  lemma {:induction false} BitsAppend(a: Bits, b: Bits)
    ensures FromBits(a + b) == FromBits(a) * Pow2(|b|) + FromBits(b)
    decreases |b|
  {
    if b == [] {
      assert a + b == a;
    } else {
      var n := |b| - 1;
      BitsAppend(a, b[..n]);
      assert (a + b)[..|a| + n] == a + b[..n];
      OneMoreBit(FromBits(a), Pow2(n), FromBits(b[..n]), if b[n] then 1 else 0);
    }
  }

  lemma OneMoreBit(x: nat, y: nat, z: nat, bit: nat)
    ensures 2 * (x * y + z) + bit == x * (2 * y) + (2 * z + bit)
  {}

  lemma {:induction false} JoinNumber(values: seq<nat>, width: nat)
    requires Within(values, width)
    ensures FromBits(Join(values, width)) == Number(values, width)
  {
    hide ToBits, FromBits;
    if values == [] {
      assert FromBits([]) == 0 by { EmptyNumber(); }
    } else {
      var n := |values| - 1;
      assert values == values[..n] + [values[n]];
      JoinSnoc(values[..n], values[n], width);
      JoinNumber(values[..n], width);
      BitsAppend(Join(values[..n], width), ToBits(values[n], width));
      FromToBits(values[n], width);
    }
  }

  lemma EmptyNumber()
    ensures FromBits([]) == 0
  {}

  lemma {:induction false} ZerosNumber(n: nat)
    ensures FromBits(Zeros(n)) == 0
  {
    if n > 0 {
      ZerosNumber(n - 1);
      assert Zeros(n)[..n - 1] == Zeros(n - 1);
    }
  }

  /** Lists of one length and one number are the same list. */
  lemma {:induction false} SameNumber(x: seq<nat>, y: seq<nat>, width: nat)
    requires width > 0 && |x| == |y| && Within(x, width) && Within(y, width)
    ensures Number(x, width) == Number(y, width) <==> x == y
  {
    hide Number, Join, FromBits, ToBits, Chunks;
    JoinNumber(x, width);
    JoinNumber(y, width);
    JoinLength(x, width);
    JoinLength(y, width);
    if Number(x, width) == Number(y, width) {
      ToFromBits(Join(x, width));
      ToFromBits(Join(y, width));
      ChunksUnique(x, [], width);
      ChunksUnique(y, [], width);
      assert Join(x, width) + [] == Join(x, width) && Join(y, width) + [] == Join(y, width);
    }
  }

  /** `p` zero bits, fewer than a group, after the data's number give the groups' number. */
  ghost predicate SameDigits(data: seq<nat>, from: nat, x: seq<nat>, to: nat, p: nat) {
    && Within(data, from) && Within(x, to) && p < to && |x| * to == |data| * from + p
    && Number(x, to) == Number(data, from) * Pow2(p)
  }

  lemma {:induction false} PaddedNumber(data: seq<nat>, from: nat, to: nat) returns (p: nat)
    requires to > 0 && Within(data, from)
    ensures Regrouping(data, from, to, true).Ok?
    ensures SameDigits(data, from, Regrouping(data, from, to, true).value, to, p)
  {
    hide ToBits, Join, FromBits, Pow2, Regrouping, Number;
    p := PaddedJoin(data, from, to);
    var x := Regrouping(data, from, to, true).value;
    JoinNumber(data, from);
    JoinNumber(x, to);
    BitsAppend(Join(data, from), Zeros(p));
    ZerosNumber(p);
    JoinLength(data, from);
    JoinLength(x, to);
  }

  /** The padded form as arithmetic: the data's number, moved up by the padding, in digits of the new width. */
  lemma {:induction false} RegroupingIsNumber(data: seq<nat>, from: nat, to: nat, x: seq<nat>)
    requires to > 0
    ensures Regrouping(data, from, to, true) == Ok(x) <==> exists p :: SameDigits(data, from, x, to, p)
  {
    hide Regrouping, Number, Pow2, Within;
    if Within(data, from) {
      var q := PaddedNumber(data, from, to);
      var y := Regrouping(data, from, to, true).value;
      if p: nat :| SameDigits(data, from, x, to, p) {
        OneCount(|x|, |y|, to, |data| * from, p, q);
        SameNumber(x, y, to);
      }
    } else {
      NotRegrouped(data, from, to);
    }
  }

  lemma NotRegrouped(data: seq<nat>, from: nat, to: nat)
    requires to > 0 && !Within(data, from)
    ensures Regrouping(data, from, to, true).InvalidAddressPayload?
  {}

  lemma OneCount(k: nat, m: nat, width: nat, n: nat, p: nat, q: nat)
    requires k * width == n + p && m * width == n + q && p < width && q < width
    ensures k == m && p == q
  {
    AtLeastOne(k, m, width);
    AtLeastOne(m, k, width);
  }

  lemma AtLeastOne(k: nat, m: nat, width: nat)
    ensures k > m ==> k * width >= m * width + width
  {
    if k > m {
      MulBounds(k - m, width);
      assert k * width == m * width + (k - m) * width;
    }
  }
}
