/** The 40-bit BCH checksum of CashAddr ("Checksum" section of the CashAddr specification).

    The running state is a `u64`, as in the source. The proofs rest on two facts about one step
    of the loop: it is linear over XOR, and it is injective on 40-bit states because the low five
    bits of the five generators are 1, 2, 4, 8 and 16. XOR and the step are hidden wherever only
    these two facts are needed. */
module Checksum {

  const GENERATORS: seq<bv64> :=
    [0x98f2_bc8e61, 0x79b7_6d99e2, 0xf33e_5fb3c4, 0xae2e_abe2a8, 0x1e4f_43e470]

  /** Addition of GF(2) vectors. */
  function Add(a: bv64, b: bv64): bv64 {
    a ^ b
  }

  predicate InRange(c: bv64) {
    c < 0x100_0000_0000
  }

  predicate Masked(high: bv64, mask: bv64) {
    high & mask != 0
  }

  predicate Bit(high: bv64, i: nat)
    requires i < 5
  {
    Masked(high, [1, 2, 4, 8, 16][i])
  }

  /** The contribution of one generator: `g` when the selecting bit is set. */
  function Pick(selected: bool, g: bv64): bv64 {
    if selected then g else 0
  }

  function Reduction(high: bv64): bv64 {
    Add(Add(Add(Add(Pick(Bit(high, 0), GENERATORS[0]), Pick(Bit(high, 1), GENERATORS[1])),
                Pick(Bit(high, 2), GENERATORS[2])), Pick(Bit(high, 3), GENERATORS[3])),
        Pick(Bit(high, 4), GENERATORS[4]))
  }

  function Shifted(c: bv64, v: bv8): bv64 {
    ((c & 0x7_ffff_ffff) << 5) ^ (v as bv64)
  }

  function High(c: bv64): bv64 {
    c >> 35
  }

  function Step(c: bv64, v: bv8): bv64 {
    Add(Shifted(c, v), Reduction(High(c)))
  }

  function Run(c: bv64, values: seq<bv8>): bv64 {
    if values == [] then c
    else Step(Run(c, values[..|values| - 1]), values[|values| - 1])
  }

  /** What the loop computes; `ComputePolymod` is the loop itself. */
  function Polymod(values: seq<bv8>): bv64 {
    Add(Run(1, values), 1)
  }

  /** The source's double loop: shift in a symbol, then fold in the selected generators. */
  method ComputePolymod(values: seq<bv8>) returns (checksum: bv64)
    ensures checksum == Polymod(values)
  {
    hide Shifted, Reduction, Add, High;
    checksum := 1;
    for i := 0 to |values|
      invariant checksum == Run(1, values[..i])
    {
      var high := High(checksum);
      checksum := FoldGenerators(high, Shifted(checksum, values[i]));
      assert values[..i + 1][..i] == values[..i];
    }
    assert values[..|values|] == values;
    checksum := Add(checksum, 1);
  }

  /** The inner loop over the generators. */
  method FoldGenerators(high: bv64, start: bv64) returns (checksum: bv64)
    ensures checksum == Add(start, Reduction(high))
  {
    hide Bit, Pick, Reduction, Add;
    checksum := start;
    AddLaws(start, 0, 0);
    for i := 0 to 5
      invariant checksum == Add(start, PartialReduction(high, i))
    {
      var g := GENERATORS[i];
      AddLaws(start, PartialReduction(high, i), g);
      AddLaws(PartialReduction(high, i), 0, 0);
      PickCases(g);
      if Bit(high, i) {
        checksum := Add(checksum, g);
      }
    }
    AddLaws(Pick(Bit(high, 0), GENERATORS[0]), 0, 0);
    PartialReductionAll(high);
  }

  ghost function PartialReduction(high: bv64, n: nat): bv64
    requires n <= 5
  {
    if n == 0 then 0
    else Add(PartialReduction(high, n - 1), Pick(Bit(high, n - 1), GENERATORS[n - 1]))
  }

  lemma PartialReductionAll(high: bv64)
    ensures PartialReduction(high, 5) == Reduction(high)
  {
    hide Bit, Pick, Add;
    AddLaws(Pick(Bit(high, 0), GENERATORS[0]), 0, 0);
    assert PartialReduction(high, 1) == Pick(Bit(high, 0), GENERATORS[0]);
    assert PartialReduction(high, 3) == Add(PartialReduction(high, 2), Pick(Bit(high, 2), GENERATORS[2]));
  }

  // ---------------------------------------------------------------- GF(2) laws

  lemma AddLaws(a: bv64, b: bv64, c: bv64)
    ensures Add(a, Add(b, c)) == Add(Add(a, b), c)
    ensures Add(a, 0) == a && Add(0, a) == a && Add(a, a) == 0
    ensures Add(a, b) == Add(b, a)
  {}

  lemma PickCases(g: bv64)
    ensures Pick(true, g) == g && Pick(false, g) == 0
  {}

  lemma AddZero(a: bv64, b: bv64)
    ensures Add(a, b) == 0 <==> a == b
  {
    hide Add;
    AddLaws(a, b, b);
    AddLaws(b, b, b);
  }

  lemma AddSwap(p: bv64, q: bv64, r: bv64, s: bv64)
    ensures Add(Add(p, q), Add(r, s)) == Add(Add(p, r), Add(q, s))
  {
    hide Add;
    AddLaws(Add(p, q), r, s);
    AddLaws(p, q, r);
    AddLaws(q, r, r);
    AddLaws(p, r, q);
    AddLaws(Add(p, r), q, s);
  }

  lemma AddInRange(a: bv64, b: bv64)
    requires InRange(a) && InRange(b)
    ensures InRange(Add(a, b))
  {}

  // ---------------------------------------------------------------- one step

  lemma MaskedLinear(a: bv64, b: bv64, m: bv64)
    requires m == 1 || m == 2 || m == 4 || m == 8 || m == 16
    ensures Masked(Add(a, b), m) == (Masked(a, m) != Masked(b, m))
  {}

  lemma PickLinear(a: bv64, b: bv64, i: nat)
    requires i < 5
    ensures Pick(Bit(Add(a, b), i), GENERATORS[i])
         == Add(Pick(Bit(a, i), GENERATORS[i]), Pick(Bit(b, i), GENERATORS[i]))
  {
    hide Add, Masked, Pick;
    MaskedLinear(a, b, [1, 2, 4, 8, 16][i]);
    PickCases(GENERATORS[i]);
    AddLaws(GENERATORS[i], 0, 0);
    AddLaws(0, 0, 0);
  }

  lemma ReductionLinear(a: bv64, b: bv64)
    ensures Reduction(Add(a, b)) == Add(Reduction(a), Reduction(b))
  {
    hide Bit, Pick, Add;
    PickLinear(a, b, 0); PickLinear(a, b, 1); PickLinear(a, b, 2); PickLinear(a, b, 3); PickLinear(a, b, 4);
    AddTen(Pick(Bit(a, 0), GENERATORS[0]), Pick(Bit(b, 0), GENERATORS[0]),
           Pick(Bit(a, 1), GENERATORS[1]), Pick(Bit(b, 1), GENERATORS[1]),
           Pick(Bit(a, 2), GENERATORS[2]), Pick(Bit(b, 2), GENERATORS[2]),
           Pick(Bit(a, 3), GENERATORS[3]), Pick(Bit(b, 3), GENERATORS[3]),
           Pick(Bit(a, 4), GENERATORS[4]), Pick(Bit(b, 4), GENERATORS[4]));
  }

  lemma AddTen(p0: bv64, q0: bv64, p1: bv64, q1: bv64, p2: bv64, q2: bv64, p3: bv64, q3: bv64, p4: bv64, q4: bv64)
    ensures Add(Add(Add(Add(Add(p0, q0), Add(p1, q1)), Add(p2, q2)), Add(p3, q3)), Add(p4, q4))
         == Add(Add(Add(Add(Add(p0, p1), p2), p3), p4), Add(Add(Add(Add(q0, q1), q2), q3), q4))
  {
    hide Add;
    AddSwap(p0, q0, p1, q1);
    AddSwap(Add(p0, p1), Add(q0, q1), p2, q2);
    AddSwap(Add(Add(p0, p1), p2), Add(Add(q0, q1), q2), p3, q3);
    AddSwap(Add(Add(Add(p0, p1), p2), p3), Add(Add(Add(q0, q1), q2), q3), p4, q4);
  }

  lemma ShiftedLinear(a: bv64, b: bv64, v: bv8, w: bv8)
    ensures Shifted(Add(a, b), v ^ w) == Add(Shifted(a, v), Shifted(b, w))
    ensures High(Add(a, b)) == Add(High(a), High(b))
  {}

  lemma StepLinear(a: bv64, b: bv64, v: bv8, w: bv8)
    ensures Step(Add(a, b), v ^ w) == Add(Step(a, v), Step(b, w))
  {
    hide Shifted, Reduction, Add, High;
    ShiftedLinear(a, b, v, w);
    ReductionLinear(High(a), High(b));
    AddSwap(Shifted(a, v), Shifted(b, w), Reduction(High(a)), Reduction(High(b)));
  }

  lemma ReductionLow(h: bv64)
    requires h < 32
    ensures Reduction(h) & 31 == h
    ensures h == 0 ==> Reduction(h) == 0
  {}

  lemma KernelHigh(d: bv64, r: bv64)
    requires InRange(d)
    requires r & 31 == High(d) && (High(d) == 0 ==> r == 0)
    requires Shifted(d, 0) == r
    ensures d == 0
  {}

  lemma HighSmall(d: bv64)
    requires InRange(d)
    ensures High(d) < 32
  {}

  /** Only the zero state steps to zero on a zero symbol. */
  lemma StepKernel(d: bv64)
    requires InRange(d) && Step(d, 0) == 0
    ensures d == 0
  {
    hide Add, Shifted, Reduction, High;
    HighSmall(d);
    ReductionLow(High(d));
    AddZero(Shifted(d, 0), Reduction(High(d)));
    KernelHigh(d, Reduction(High(d)));
  }

  lemma StepInRange(c: bv64, v: bv8)
    ensures InRange(Step(c, v))
  {}

  /** The checksum step is injective, hence a bijection, on 40-bit states. */
  lemma StepInjective(a: bv64, b: bv64, v: bv8)
    requires InRange(a) && InRange(b) && Step(a, v) == Step(b, v)
    ensures a == b
  {
    hide Step, Add, InRange;
    StepLinear(a, b, v, v);
    SymbolLaws(v, v);
    AddInRange(a, b);
    AddZero(Step(a, v), Step(b, v));
    StepKernel(Add(a, b));
    AddZero(a, b);
  }

  lemma SymbolLaws(v: bv8, w: bv8)
    ensures v ^ v == 0 && 0 ^ w == w
    ensures v ^ w == 0 ==> v == w
    ensures v < 32 && w < 32 ==> v ^ w < 32
  {}

  // ---------------------------------------------------------------- whole runs

  lemma RunInRange(c: bv64, values: seq<bv8>)
    requires InRange(c)
    ensures InRange(Run(c, values))
  {
    hide Step, InRange;
    if values != [] { StepInRange(Run(c, values[..|values| - 1]), values[|values| - 1]); }
  }

  lemma {:induction false} RunAppend(c: bv64, a: seq<bv8>, b: seq<bv8>)
    ensures Run(c, a + b) == Run(Run(c, a), b)
    decreases |b|
  {
    hide Step;
    if b == [] {
      assert a + b == a;
    } else {
      RunAppend(c, a, b[..|b| - 1]);
      assert (a + b)[..|a + b| - 1] == a + b[..|b| - 1];
    }
  }

  function Xor(a: seq<bv8>, b: seq<bv8>): (r: seq<bv8>)
    requires |a| == |b|
    ensures |r| == |a| && forall i :: 0 <= i < |a| ==> r[i] == a[i] ^ b[i]
  {
    seq(|a|, i requires 0 <= i < |a| => a[i] ^ b[i])
  }

  lemma {:induction false} RunLinear(c: bv64, d: bv64, a: seq<bv8>, b: seq<bv8>)
    requires |a| == |b|
    ensures Run(Add(c, d), Xor(a, b)) == Add(Run(c, a), Run(d, b))
    decreases |a|
  {
    hide Step, Add;
    if a != [] {
      var n := |a| - 1;
      RunLinear(c, d, a[..n], b[..n]);
      assert Xor(a, b)[..n] == Xor(a[..n], b[..n]);
      StepLinear(Run(c, a[..n]), Run(d, b[..n]), a[n], b[n]);
    }
  }

  lemma {:induction false} RunInjective(a: bv64, b: bv64, values: seq<bv8>)
    requires InRange(a) && InRange(b) && Run(a, values) == Run(b, values)
    ensures a == b
    decreases |values|
  {
    hide Step, InRange;
    if values != [] {
      var init := values[..|values| - 1];
      RunInRange(a, init);
      RunInRange(b, init);
      StepInjective(Run(a, init), Run(b, init), values[|values| - 1]);
      RunInjective(a, b, init);
    }
  }

  predicate FiveBit(values: seq<bv8>) {
    forall i :: 0 <= i < |values| ==> values[i] < 32
  }

  /** `c >> 5 * groups`, one group at a time. */
  function ShiftDown(c: bv64, groups: nat): bv64 {
    if groups == 0 then c else ShiftDown(c >> 5, groups - 1)
  }

  lemma {:induction false} ShiftDownNext(c: bv64, groups: nat)
    ensures ShiftDown(c, groups) >> 5 == ShiftDown(c, groups + 1)
    decreases groups
  {
    if groups > 0 { ShiftDownNext(c >> 5, groups - 1); }
  }

  lemma ShiftDownValues(c: bv64)
    ensures ShiftDown(c, 7) == c >> 35
    ensures InRange(c) ==> ShiftDown(c, 8) == 0
  {
    ShiftDownThree(c, 4);
    ShiftDownThree(c >> 15, 1);
    Shifts(c);
    assert ShiftDown(c >> 30, 1) == ShiftDown(c >> 35, 0);
    ShiftDownNext(c, 7);
  }

  lemma Shifts(c: bv64)
    ensures (c >> 15) >> 15 == c >> 30 && (c >> 30) >> 5 == c >> 35
  {}

  lemma ShiftDownThree(c: bv64, groups: nat)
    ensures ShiftDown(c, groups + 3) == ShiftDown(c >> 15, groups)
  {
    assert ((c >> 5) >> 5) >> 5 == c >> 15;
    assert ShiftDown(c, groups + 3) == ShiftDown(c >> 5, groups + 2) == ShiftDown((c >> 5) >> 5, groups + 1);
  }

  /** Below two to the power 5n. */
  ghost predicate Fits(c: bv64, n: nat) {
    ShiftDown(c, n) == 0
  }

  lemma {:induction false} FitsSmall(c: bv64, n: nat)
    requires n <= 7 && Fits(c, n)
    ensures c < 0x8_0000_0000
    decreases 7 - n
  {
    if n == 7 {
      ShiftDownValues(c);
    } else {
      ShiftDownNext(c, n);
      FitsSmall(c, n + 1);
    }
  }

  lemma StepShifts(c: bv64, v: bv8)
    requires c < 0x8_0000_0000
    ensures Step(c, v) == Next(c, v)
  {}

  /** The step without its reduction. */
  ghost function Next(c: bv64, v: bv8): bv64 {
    (c << 5) ^ (v as bv64)
  }

  lemma NextShifts(c: bv64, v: bv8)
    requires c < 0x8_0000_0000 && v < 32
    ensures Next(c, v) >> 5 == c
    ensures Next(c, v) == 0 ==> c == 0 && v == 0
  {}

  lemma StepFits(c: bv64, n: nat, v: bv8)
    requires n < 8 && Fits(c, n) && v < 32
    ensures Fits(Step(c, v), n + 1)
    ensures Step(c, v) == 0 ==> c == 0 && v == 0
  {
    hide Step, Next;
    FitsSmall(c, n);
    NextShifts(c, v);
    StepShifts(c, v);
  }

  lemma ZeroFits()
    ensures Fits(0, 0)
  {}

  /** From the zero state, up to eight symbols pack into the state without any reduction. */
  lemma {:induction false} Packs(d: seq<bv8>)
    requires |d| <= 8 && FiveBit(d)
    ensures Fits(Run(0, d), |d|)
    ensures Run(0, d) == 0 ==> forall i :: 0 <= i < |d| ==> d[i] == 0
    decreases |d|
  {
    hide Step, Fits;
    if d == [] {
      ZeroFits();
    } else {
      var n := |d| - 1;
      Packs(d[..n]);
      StepFits(Run(0, d[..n]), n, d[n]);
      assert forall i :: 0 <= i < n ==> d[i] == d[..n][i];
    }
  }

  /** Eight symbols read from any state are determined by the state they lead to. */
  lemma {:induction false} WindowInjective(c: bv64, u: seq<bv8>, w: seq<bv8>)
    requires |u| == |w| <= 8 && FiveBit(u) && FiveBit(w) && Run(c, u) == Run(c, w)
    ensures u == w
  {
    hide Step, Add, Fits;
    RunLinear(c, c, u, w);
    AddLaws(c, c, c);
    AddZero(Run(c, u), Run(c, w));
    forall i | 0 <= i < |u| ensures Xor(u, w)[i] < 32 { SymbolLaws(u[i], w[i]); }
    Packs(Xor(u, w));
    forall i | 0 <= i < |u| ensures u[i] == w[i] {
      assert Xor(u, w)[i] == 0;
      SymbolLaws(u[i], w[i]);
    }
  }

  /** Burst detection at any length: a change confined to eight consecutive symbols always changes
      the checksum, so two such texts are never both valid. */
  lemma {:induction false} BurstDetected(before: seq<bv8>, u: seq<bv8>, w: seq<bv8>, after: seq<bv8>)
    requires |u| == |w| <= 8 && FiveBit(u) && FiveBit(w) && u != w
    ensures Polymod(before + u + after) != Polymod(before + w + after)
    ensures !(Polymod(before + u + after) == 0 && Polymod(before + w + after) == 0)
  {
    hide Step, Add;
    var c := Run(1, before);
    RunInRange(1, before);
    RunInRange(c, u);
    RunInRange(c, w);
    RunAppend(1, before + u, after);
    RunAppend(1, before, u);
    RunAppend(1, before + w, after);
    RunAppend(1, before, w);
    if Run(c, u) == Run(c, w) {
      WindowInjective(c, u, w);
    }
    var x, y := Run(1, before + u + after), Run(1, before + w + after);
    if x == y {
      RunInjective(Run(c, u), Run(c, w), after);
    }
    AddLaws(x, 1, 1);
    AddLaws(y, 1, 1);
    AddLaws(1, 1, 1);
  }

  // ---------------------------------------------------------------- the checksum symbols

  const EIGHT_ZEROS: seq<bv8> := [0, 0, 0, 0, 0, 0, 0, 0]

  function LowSymbol(c: bv64): (v: bv8)
    ensures v < 32
  {
    (c & 31) as bv8
  }

  /** The eight symbols `to_cashaddr` appends: the state cut into five-bit groups, high first. */
  function ChecksumSymbols(checksum: bv64): (t: seq<bv8>)
    ensures |t| == 8 && FiveBit(t)
  {
    hide LowSymbol, ShiftDown;
    seq(8, i requires 0 <= i < 8 => LowSymbol(ShiftDown(checksum, 7 - i)))
  }

  lemma {:induction false} ShiftDownFits(k: bv64, m: nat)
    requires InRange(k) && m <= 8
    ensures Fits(ShiftDown(k, m), 8 - m)
  {
    if m == 0 {
      ShiftDownValues(k);
    } else {
      ShiftDownFits(k, m - 1);
      ShiftDownNext(k, m - 1);
    }
  }

  lemma Recombine(c: bv64)
    ensures Next(c >> 5, LowSymbol(c)) == c
  {}

  lemma StepRestores(k: bv64, m: nat)
    requires InRange(k) && m < 8
    ensures Step(ShiftDown(k, m + 1), LowSymbol(ShiftDown(k, m))) == ShiftDown(k, m)
  {
    hide Step, InRange, LowSymbol, Next, ShiftDown, Fits;
    ShiftDownNext(k, m);
    ShiftDownFits(k, m + 1);
    FitsSmall(ShiftDown(k, m + 1), 7 - m);
    StepShifts(ShiftDown(k, m + 1), LowSymbol(ShiftDown(k, m)));
    Recombine(ShiftDown(k, m));
  }

  lemma {:induction false} RunPrefix(k: bv64, n: nat)
    requires InRange(k) && n <= 8
    ensures Run(0, ChecksumSymbols(k)[..n]) == ShiftDown(k, 8 - n)
  {
    hide Step, InRange, LowSymbol, ShiftDown;
    if n == 0 {
      ShiftDownValues(k);
    } else {
      var t := ChecksumSymbols(k);
      RunPrefix(k, n - 1);
      assert t[..n][..n - 1] == t[..n - 1];
      StepRestores(k, 8 - n);
    }
  }

  /** Running the checksum's own symbols from zero rebuilds it. */
  lemma ChecksumSymbolsPack(k: bv64)
    requires InRange(k)
    ensures Run(0, ChecksumSymbols(k)) == k
  {
    hide Step, ChecksumSymbols, Run;
    RunPrefix(k, 8);
    assert ChecksumSymbols(k)[..8] == ChecksumSymbols(k);
  }

  /** Exactly one checksum fits any text: eight trailing symbols make `polymod` zero if and only if
      they are the ones the printer computes over eight zeros. */
  lemma {:induction false} ChecksumUnique(text: seq<bv8>, tail: seq<bv8>)
    requires |tail| == 8 && FiveBit(tail)
    ensures Polymod(text + tail) == 0 <==> tail == ChecksumSymbols(Polymod(text + EIGHT_ZEROS))
  {
    hide Step, ChecksumSymbols, Add, InRange;
    var c := Run(1, text);
    var r := Run(c, EIGHT_ZEROS);
    var t := ChecksumSymbols(Add(r, 1));
    RunAppend(1, text, tail);
    RunAppend(1, text, EIGHT_ZEROS);
    OneInRange();
    RunInRange(1, text);
    RunInRange(c, EIGHT_ZEROS);
    AddInRange(r, 1);
    ChecksumSymbolsPack(Add(r, 1));
    forall i | 0 <= i < 8 ensures Xor(EIGHT_ZEROS, t)[i] == t[i] { SymbolLaws(0, t[i]); }
    assert Xor(EIGHT_ZEROS, t) == t;
    RunLinear(c, 0, EIGHT_ZEROS, t);
    AddLaws(c, 0, 0);
    AddLaws(r, r, 1);
    AddLaws(1, 1, 1);
    assert Run(c, t) == 1;
    AddZero(Run(c, tail), 1);
    if Polymod(text + tail) == 0 {
      WindowInjective(c, tail, t);
    }
  }

  lemma OneInRange()
    ensures InRange(1)
  {}
}
