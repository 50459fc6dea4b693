/** The ForkID signature hash ("Specification" section of BIP 143, as adopted by Bitcoin Cash) and
    what it commits to, for every supported hash type. */
module Sighash {
  import opened Bytes
  import opened TxCodec

  // ---------------------------------------------------------------- hash types

  /** `ForkIdSighashType::from_consensus`, with the bit tests on `u32` written as arithmetic. */
  function FromConsensus(raw: u32): (r: Result<u32>)
    ensures r.Ok? <==> raw / 64 % 2 == 1 && raw / 32 % 2 == 0 && 1 <= Base(raw) <= 3
    ensures r.Ok? ==> r.value == raw
    ensures r == Err(MissingForkId) <==> raw / 64 % 2 == 0
  {
    LowByte(raw);
    var base := raw % 32;
    if raw / 64 % 2 == 0 then Err(MissingForkId)
    else if !(1 <= base <= 3) || raw % 256 != base + 0x40 + 0x80 * (raw / 128 % 2) then Err(UnsupportedSighashType(raw))
    else Ok(raw)
  }

  lemma LowByte(raw: u32)
    ensures raw % 256 == raw % 32 + 32 * (raw / 32 % 2) + 64 * (raw / 64 % 2) + 128 * (raw / 128 % 2)
  {
    BitFive(raw);
    BitSix(raw);
    BitSeven(raw);
  }

  lemma BitFive(raw: nat)
    ensures raw % 64 == raw % 32 + 32 * (raw / 32 % 2)
  {}

  lemma BitSix(raw: nat)
    ensures raw % 128 == raw % 64 + 64 * (raw / 64 % 2)
  {}

  lemma BitSeven(raw: nat)
    ensures raw % 256 == raw % 128 + 128 * (raw / 128 % 2)
  {}

  function Base(hashType: u32): nat {
    hashType % 32
  }

  predicate AnyoneCanPay(hashType: u32) {
    hashType / 128 % 2 == 1
  }

  // ---------------------------------------------------------------- the hashed strings

  /** What `fork_id_sighash` is asked to sign. */
  datatype Spend = Spend(tx: Transaction, inputIndex: nat, scriptCode: Vec<byte>, inputValue: u64, hashType: u32)

  function U32Bytes(v: u32): (r: seq<byte>)
    ensures |r| == 4
  {
    LittleEndian(v, 4)
  }

  function Prevouts(inputs: seq<TxIn>): (r: Vec<OutPoint>)
    requires |inputs| < 0x1_0000_0000_0000_0000
    ensures |r| == |inputs|
  {
    seq(|inputs|, i requires 0 <= i < |inputs| => inputs[i].previousOutput)
  }

  function Sequences(inputs: seq<TxIn>): (r: Vec<u32>)
    requires |inputs| < 0x1_0000_0000_0000_0000
    ensures |r| == |inputs|
  {
    seq(|inputs|, i requires 0 <= i < |inputs| => inputs[i].sequence)
  }

  function HashPrevouts(d: Hash, s: Spend): Digest {
    if AnyoneCanPay(s.hashType) then ZERO_HASH else d(ManyBytes(OutPointBytes, Prevouts(s.tx.inputs)))
  }

  function HashSequence(d: Hash, s: Spend): Digest {
    if AnyoneCanPay(s.hashType) || Base(s.hashType) == 2 || Base(s.hashType) == 3 then ZERO_HASH
    else d(ManyBytes(U32Bytes, Sequences(s.tx.inputs)))
  }

  function HashOutputs(d: Hash, s: Spend): Result<Digest> {
    if Base(s.hashType) == 1 then Ok(d(ManyBytes(OutputBytes, s.tx.outputs)))
    else if Base(s.hashType) == 3 && s.inputIndex < |s.tx.outputs| then Ok(d(OutputBytes(s.tx.outputs[s.inputIndex])))
    else if Base(s.hashType) == 2 || Base(s.hashType) == 3 then Ok(ZERO_HASH)
    else Err(UnsupportedSighashType(s.hashType))
  }

  function Layout(version: u32, prevouts: Digest, sequences: Digest, outpoint: OutPoint, script: Vec<byte>,
                  value: u64, sequence: u32, outputs: Digest, lockTime: u32, hashType: u32): seq<byte>
  {
    U32Bytes(version) + (prevouts + (sequences + (OutPointBytes(outpoint) + (VarBytes(script)
    + (LittleEndian(value, 8) + (U32Bytes(sequence) + (outputs + (U32Bytes(lockTime) + U32Bytes(hashType)))))))))
  }

  function Preimage(d: Hash, s: Spend): (r: Result<seq<byte>>) {
    if s.inputIndex >= |s.tx.inputs| then Err(InputIndexOutOfBounds(s.inputIndex, |s.tx.inputs|))
    else
      var input := s.tx.inputs[s.inputIndex];
      var outputs := HashOutputs(d, s);
      if outputs.Err? then Err(outputs.error)
      else Ok(Layout(Unsigned(s.tx.version), HashPrevouts(d, s), HashSequence(d, s), input.previousOutput, s.scriptCode,
                     s.inputValue, input.sequence, outputs.value, s.tx.lockTime, s.hashType))
  }

  /** `double_sha256` over an arbitrary SHA-256. */
  function Double(sha256: Hash): Hash {
    x => sha256(sha256(x))
  }

  function SighashOf(sha256: Hash, s: Spend): (r: Result<Digest>) {
    var p := Preimage(Double(sha256), s);
    if p.Err? then Err(p.error) else Ok(Double(sha256)(p.value))
  }

  /** The source's buffers and loops. A digest is SHA-256 applied twice to the string described by position. */
  method ForkIdSighash(sha256: Hash, s: Spend) returns (r: Result<Digest>)
    ensures r == SighashOf(sha256, s)
    ensures r.Ok? <==> s.inputIndex < |s.tx.inputs| && 1 <= s.hashType % 32 <= 3
    ensures r.Ok? ==> exists p :: PreimageAt(sha256, s, p) && r.value == sha256(sha256(p))
  {
    PreimagePositions(sha256, s);
    hide PreimageAt, Layout, ManyBytes, OutPointBytes, OutputBytes, VarBytes, LittleEndian;
    var d := Double(sha256);
    if s.inputIndex >= |s.tx.inputs| {
      return Err(InputIndexOutOfBounds(s.inputIndex, |s.tx.inputs|));
    }
    var input := s.tx.inputs[s.inputIndex];
    var hashPrevouts, hashSequence := ZERO_HASH, ZERO_HASH;
    if !AnyoneCanPay(s.hashType) {
      var encoded := EncodePrevouts(s.tx.inputs);
      hashPrevouts := d(encoded);
    }
    if !AnyoneCanPay(s.hashType) && Base(s.hashType) != 2 && Base(s.hashType) != 3 {
      var encoded := EncodeSequences(s.tx.inputs);
      hashSequence := d(encoded);
    }
    var hashOutputs := ZERO_HASH;
    if Base(s.hashType) == 1 {
      var encoded := EncodeOutputs(s.tx.outputs);
      hashOutputs := d(encoded);
    } else if Base(s.hashType) == 3 && s.inputIndex < |s.tx.outputs| {
      hashOutputs := d(OutputBytes(s.tx.outputs[s.inputIndex]));
    } else if Base(s.hashType) != 2 && Base(s.hashType) != 3 {
      return Err(UnsupportedSighashType(s.hashType));
    }
    var preimage := Layout(Unsigned(s.tx.version), hashPrevouts, hashSequence, input.previousOutput, s.scriptCode,
                           s.inputValue, input.sequence, hashOutputs, s.tx.lockTime, s.hashType);
    return Ok(d(preimage));
  }

  method EncodePrevouts(inputs: Vec<TxIn>) returns (encoded: seq<byte>)
    ensures encoded == ManyBytes(OutPointBytes, Prevouts(inputs))
  {
    hide OutPointBytes, ManyBytes;
    encoded := [];
    ManyNone(OutPointBytes);
    for i := 0 to |inputs|
      invariant encoded == ManyBytes(OutPointBytes, Prevouts(inputs)[..i])
    {
      ManySnoc(OutPointBytes, Prevouts(inputs), i);
      encoded := encoded + OutPointBytes(inputs[i].previousOutput);
    }
    assert Prevouts(inputs)[..|inputs|] == Prevouts(inputs);
  }

  method EncodeSequences(inputs: Vec<TxIn>) returns (encoded: seq<byte>)
    ensures encoded == ManyBytes(U32Bytes, Sequences(inputs))
  {
    hide U32Bytes, ManyBytes;
    encoded := [];
    ManyNone(U32Bytes);
    for i := 0 to |inputs|
      invariant encoded == ManyBytes(U32Bytes, Sequences(inputs)[..i])
    {
      ManySnoc(U32Bytes, Sequences(inputs), i);
      encoded := encoded + U32Bytes(inputs[i].sequence);
    }
    assert Sequences(inputs)[..|inputs|] == Sequences(inputs);
  }

  method EncodeOutputs(outputs: Vec<TxOut>) returns (encoded: seq<byte>)
    ensures encoded == ManyBytes(OutputBytes, outputs)
  {
    hide OutputBytes, ManyBytes;
    encoded := [];
    ManyNone(OutputBytes);
    for i := 0 to |outputs|
      invariant encoded == ManyBytes(OutputBytes, outputs[..i])
    {
      ManySnoc(OutputBytes, outputs, i);
      encoded := encoded + OutputBytes(outputs[i]);
    }
    assert outputs[..|outputs|] == outputs;
  }

  // ---------------------------------------------------------------- the hashed string, by position

  /** Each input's transaction identifier and output index, in order. */
  predicate OutpointsAt(q: seq<byte>, inputs: seq<TxIn>) {
    && |q| == 36 * |inputs|
    && (forall i :: 0 <= i < |inputs| ==>
          && q[36 * i..36 * i + 32] == inputs[i].previousOutput.txid
          && FromLittleEndian(q[36 * i + 32..36 * i + 36]) == inputs[i].previousOutput.outputIndex)
  }

  predicate SequencesAt(q: seq<byte>, inputs: seq<TxIn>) {
    && |q| == 4 * |inputs|
    && (forall i :: 0 <= i < |inputs| ==> FromLittleEndian(q[4 * i..4 * i + 4]) == inputs[i].sequence)
  }

  /** The transaction reader reads exactly these outputs, and nothing is left. */
  predicate OutputsAt(q: seq<byte>, outputs: seq<TxOut>) {
    ReadMany(ReadOutput, q, |outputs|) == Got(outputs, [])
  }

  predicate AllZero(h: seq<byte>) {
    |h| == 32 && forall i :: 0 <= i < 32 ==> h[i] == 0
  }

  /** The 32 bytes are zeros, or SHA-256 twice over a string of the right kind. */
  ghost predicate PrevoutsHash(sha256: Hash, s: Spend, h: seq<byte>) {
    if s.hashType / 128 % 2 == 1 then AllZero(h)
    else exists q :: OutpointsAt(q, s.tx.inputs) && h == sha256(sha256(q))
  }

  ghost predicate SequencesHash(sha256: Hash, s: Spend, h: seq<byte>) {
    if s.hashType / 128 % 2 == 1 || s.hashType % 32 != 1 then AllZero(h)
    else exists q :: SequencesAt(q, s.tx.inputs) && h == sha256(sha256(q))
  }

  ghost predicate OutputsHash(sha256: Hash, s: Spend, h: seq<byte>) {
    if s.hashType % 32 == 1 then exists q :: OutputsAt(q, s.tx.outputs) && h == sha256(sha256(q))
    else if s.hashType % 32 == 3 && s.inputIndex < |s.tx.outputs| then
      exists q :: OutputsAt(q, [s.tx.outputs[s.inputIndex]]) && h == sha256(sha256(q))
    else AllZero(h)
  }

  /** The hashed string: version, the two input hashes, the signed outpoint, the script with its length, then
      value, sequence, outputs hash, lock time and hash type. */
  ghost predicate PreimageAt(sha256: Hash, s: Spend, p: seq<byte>) {
    var m := |p| - 52;
    && m >= 104 && s.inputIndex < |s.tx.inputs|
    && FromLittleEndian(p[..4]) == Unsigned(s.tx.version)
    && PrevoutsHash(sha256, s, p[4..36]) && SequencesHash(sha256, s, p[36..68])
    && OutpointsAt(p[68..104], [s.tx.inputs[s.inputIndex]])
    && ReadVarBytes(p[104..]) == Got(s.scriptCode, p[m..])
    && FromLittleEndian(p[m..m + 8]) == s.inputValue
    && FromLittleEndian(p[m + 8..m + 12]) == s.tx.inputs[s.inputIndex].sequence
    && OutputsHash(sha256, s, p[m + 12..m + 44])
    && FromLittleEndian(p[m + 44..m + 48]) == s.tx.lockTime
    && FromLittleEndian(p[m + 48..m + 52]) == s.hashType
  }

  lemma {:induction false} ManyAt<T>(encode: T -> seq<byte>, items: seq<T>, size: nat, i: nat)
    requires size == 36 || size == 4
    requires (forall x <- items :: |encode(x)| == size) && i < |items|
    ensures |ManyBytes(encode, items)| == size * |items|
    ensures ManyBytes(encode, items)[size * i..size * i + size] == encode(items[i])
  {
    var rest := ManyBytes(encode, items[1..]);
    ManySize(encode, items[1..], size);
    if i > 0 {
      ManyAt(encode, items[1..], size, i - 1);
      assert (encode(items[0]) + rest)[size * i..size * i + size] == rest[size * (i - 1)..size * (i - 1) + size];
    }
  }

  lemma {:induction false} ManySize<T>(encode: T -> seq<byte>, items: seq<T>, size: nat)
    requires (size == 36 || size == 4) && forall x <- items :: |encode(x)| == size
    ensures |ManyBytes(encode, items)| == size * |items|
  {
    if items != [] {
      ManySize(encode, items[1..], size);
    }
  }

  lemma OutpointParts(o: OutPoint)
    ensures OutPointBytes(o)[..32] == o.txid && FromLittleEndian(OutPointBytes(o)[32..]) == o.outputIndex
  {
    Powers();
    LittleEndianReads(o.outputIndex, 4);
  }

  lemma PrevoutsPlaced(inputs: Vec<TxIn>)
    ensures OutpointsAt(ManyBytes(OutPointBytes, Prevouts(inputs)), inputs)
  {
    hide OutPointBytes, ManyBytes, FromLittleEndian;
    var q := ManyBytes(OutPointBytes, Prevouts(inputs));
    ManySize(OutPointBytes, Prevouts(inputs), 36);
    forall i | 0 <= i < |inputs|
      ensures q[36 * i..36 * i + 32] == inputs[i].previousOutput.txid
      ensures FromLittleEndian(q[36 * i + 32..36 * i + 36]) == inputs[i].previousOutput.outputIndex
    {
      ManyAt(OutPointBytes, Prevouts(inputs), 36, i);
      OutpointParts(inputs[i].previousOutput);
      var entry := q[36 * i..36 * i + 36];
      assert q[36 * i..36 * i + 32] == entry[..32] && q[36 * i + 32..36 * i + 36] == entry[32..];
    }
  }

  lemma SequencesPlaced(inputs: Vec<TxIn>)
    ensures SequencesAt(ManyBytes(U32Bytes, Sequences(inputs)), inputs)
  {
    hide ManyBytes, FromLittleEndian, LittleEndian;
    var q := ManyBytes(U32Bytes, Sequences(inputs));
    ManySize(U32Bytes, Sequences(inputs), 4);
    forall i | 0 <= i < |inputs| ensures FromLittleEndian(q[4 * i..4 * i + 4]) == inputs[i].sequence {
      ManyAt(U32Bytes, Sequences(inputs), 4, i);
      Powers();
      LittleEndianReads(inputs[i].sequence, 4);
    }
  }

  lemma OutputsPlaced(outputs: seq<TxOut>)
    ensures OutputsAt(ManyBytes(OutputBytes, outputs), outputs)
  {
    hide ManyBytes, ReadMany;
    OutputExact();
    ManyExact(ReadOutput, OutputBytes, ManyBytes(OutputBytes, outputs), outputs, []);
    assert ManyBytes(OutputBytes, outputs) + [] == ManyBytes(OutputBytes, outputs);
  }

  lemma OneOutputPlaced(o: TxOut)
    ensures OutputsAt(OutputBytes(o), [o])
  {
    hide OutputBytes, ReadMany;
    OutputsPlaced([o]);
    assert ManyBytes(OutputBytes, [o]) == OutputBytes(o) + ManyBytes(OutputBytes, []);
    assert OutputBytes(o) + [] == OutputBytes(o);
  }

  lemma HashesPlaced(sha256: Hash, s: Spend)
    requires 1 <= Base(s.hashType) <= 3
    ensures PrevoutsHash(sha256, s, HashPrevouts(Double(sha256), s))
    ensures SequencesHash(sha256, s, HashSequence(Double(sha256), s))
    ensures OutputsHash(sha256, s, HashOutputs(Double(sha256), s).value)
  {
    hide ManyBytes, OutPointBytes, OutputBytes, OutpointsAt, SequencesAt, OutputsAt;
    PrevoutsPlaced(s.tx.inputs);
    SequencesPlaced(s.tx.inputs);
    OutputsPlaced(s.tx.outputs);
    if s.inputIndex < |s.tx.outputs| { OneOutputPlaced(s.tx.outputs[s.inputIndex]); }
  }

  /** Where ten parts of a concatenation stand. */
  lemma Placed(a: seq<byte>, b: seq<byte>, c: seq<byte>, d: seq<byte>, e: seq<byte>, f: seq<byte>, g: seq<byte>,
               h: seq<byte>, k: seq<byte>, l: seq<byte>)
    requires |a| == |g| == |k| == |l| == 4 && |b| == |c| == |h| == 32 && |d| == 36 && |f| == 8
    ensures var p := a + (b + (c + (d + (e + (f + (g + (h + (k + l))))))));
      var m := |p| - 52;
      && m == 104 + |e| && p[..4] == a && p[4..36] == b && p[36..68] == c && p[68..104] == d && p[104..] == e + p[m..]
      && p[m..m + 8] == f && p[m + 8..m + 12] == g && p[m + 12..m + 44] == h && p[m + 44..m + 48] == k
      && p[m + 48..m + 52] == l
  {
    var tail := f + (g + (h + (k + l)));
    TailPlaced(f, g, h, k, l);
    var p := a + (b + (c + (d + (e + tail))));
    var m := |p| - 52;
    assert p[..4] == a && p[4..36] == b && p[36..68] == c && p[68..104] == d;
    assert p[104..] == e + tail && p[m..] == tail;
    assert forall i, j :: 0 <= i <= j <= 52 ==> p[m + i..m + j] == tail[i..j];
    assert p[m + 0..m + 8] == tail[0..8] && p[m + 8..m + 12] == tail[8..12] && p[m + 12..m + 44] == tail[12..44];
    assert p[m + 44..m + 48] == tail[44..48] && p[m + 48..m + 52] == tail[48..52];
  }

  lemma TailPlaced(f: seq<byte>, g: seq<byte>, h: seq<byte>, k: seq<byte>, l: seq<byte>)
    requires |f| == 8 && |g| == |k| == |l| == 4 && |h| == 32
    ensures var t := f + (g + (h + (k + l)));
      |t| == 52 && t[0..8] == f && t[8..12] == g && t[12..44] == h && t[44..48] == k && t[48..52] == l
  {}

  /** Whatever is hashed last for a supported spend is the string described by position. */
  lemma PreimagePositions(sha256: Hash, s: Spend)
    ensures s.inputIndex < |s.tx.inputs| && 1 <= Base(s.hashType) <= 3 ==>
      && Preimage(Double(sha256), s).Ok? && PreimageAt(sha256, s, Preimage(Double(sha256), s).value)
      && SighashOf(sha256, s) == Ok(sha256(sha256(Preimage(Double(sha256), s).value)))
  {
    hide ManyBytes, OutPointBytes, OutputBytes, VarBytes, LittleEndian, FromLittleEndian, ReadVarBytes;
    hide PrevoutsHash, SequencesHash, OutputsHash, HashPrevouts, HashSequence;
    if s.inputIndex < |s.tx.inputs| && 1 <= Base(s.hashType) <= 3 {
      var d := Double(sha256);
      var x := s.tx.inputs[s.inputIndex];
      HashesPlaced(sha256, s);
      Powers();
      LittleEndianReads(Unsigned(s.tx.version), 4);
      LittleEndianReads(s.inputValue, 8);
      LittleEndianReads(x.sequence, 4);
      LittleEndianReads(s.tx.lockTime, 4);
      LittleEndianReads(s.hashType, 4);
      Placed(U32Bytes(Unsigned(s.tx.version)), HashPrevouts(d, s), HashSequence(d, s), OutPointBytes(x.previousOutput),
             VarBytes(s.scriptCode), LittleEndian(s.inputValue, 8), U32Bytes(x.sequence), HashOutputs(d, s).value,
             U32Bytes(s.tx.lockTime), U32Bytes(s.hashType));
      var p := Preimage(d, s).value;
      VarBytesExact(p[104..], s.scriptCode, p[|p| - 52..]);
      SignedOutpoint(x);
    }
  }

  lemma SignedOutpoint(x: TxIn)
    ensures OutpointsAt(OutPointBytes(x.previousOutput), [x])
  {
    hide OutPointBytes, FromLittleEndian;
    OutpointParts(x.previousOutput);
    var q := OutPointBytes(x.previousOutput);
    assert q[0..32] == q[..32] && q[32..36] == q[32..];
  }

  // ---------------------------------------------------------------- what a digest commits to

  datatype Committed<T> = Everything(items: T) | Nothing

  datatype OutputView = AllOutputs(outputs: seq<TxOut>) | OneOutput(output: TxOut) | NoOutputs

  /** Everything a signature over the digest pins down; no `script_sig` occurs in it. */
  datatype View = View(
    version: i32, lockTime: u32, hashType: u32,
    outpoint: OutPoint, sequence: u32, scriptCode: seq<byte>, inputValue: u64,
    prevouts: Committed<seq<OutPoint>>, sequences: Committed<seq<u32>>, outputs: OutputView)

  ghost predicate Supported(s: Spend) {
    s.inputIndex < |s.tx.inputs| && 1 <= Base(s.hashType) <= 3
  }

  function ViewOf(s: Spend): View
    requires Supported(s)
  {
    var input := s.tx.inputs[s.inputIndex];
    var all := !AnyoneCanPay(s.hashType);
    View(s.tx.version, s.tx.lockTime, s.hashType, input.previousOutput, input.sequence, s.scriptCode, s.inputValue,
         if all then Everything(Prevouts(s.tx.inputs)) else Nothing,
         if all && Base(s.hashType) == 1 then Everything(Sequences(s.tx.inputs)) else Nothing,
         if Base(s.hashType) == 1 then AllOutputs(s.tx.outputs)
         else if Base(s.hashType) == 3 && s.inputIndex < |s.tx.outputs| then OneOutput(s.tx.outputs[s.inputIndex])
         else NoOutputs)
  }

  /** The serialised outputs that are hashed: all, the one matching the input, or none. */
  function OutputStrings(s: Spend): set<seq<byte>> {
    if Base(s.hashType) == 1 then {ManyBytes(OutputBytes, s.tx.outputs)} else SingleOutput(s)
  }

  function SingleOutput(s: Spend): set<seq<byte>> {
    if Base(s.hashType) == 3 && s.inputIndex < |s.tx.outputs| then {OutputBytes(s.tx.outputs[s.inputIndex])} else {}
  }

  /** The strings fed to the double hash for one spend, which depend on its hash type. */
  ghost function Hashed(d: Hash, s: Spend): set<seq<byte>>
    requires Supported(s)
  {
    {Preimage(d, s).value} + OutputStrings(s)
    + (if AnyoneCanPay(s.hashType) then {} else {ManyBytes(OutPointBytes, Prevouts(s.tx.inputs))})
    + (if AnyoneCanPay(s.hashType) || Base(s.hashType) != 1 then {} else {ManyBytes(U32Bytes, Sequences(s.tx.inputs))})
  }

  /** The hash separates the strings of two spends from each other; and a single output, which may be
      missing, from the all-zero placeholder that then stands for it. */
  ghost predicate Separates(d: Hash, s: Spend, t: Spend)
    requires Supported(s) && Supported(t)
  {
    && (forall x, y :: x in Hashed(d, s) + Hashed(d, t) && y in Hashed(d, s) + Hashed(d, t) && d(x) == d(y) ==> x == y)
    && (forall x :: x in SingleOutput(s) + SingleOutput(t) ==> d(x) != ZERO_HASH)
  }

  lemma LayoutInjective(v: u32, p: Digest, q: Digest, o: OutPoint, c: Vec<byte>, a: u64, n: u32,
                        h: Digest, l: u32, t: u32,
                        v': u32, p': Digest, q': Digest, o': OutPoint, c': Vec<byte>, a': u64, n': u32,
                        h': Digest, l': u32, t': u32)
    requires Layout(v, p, q, o, c, a, n, h, l, t) == Layout(v', p', q', o', c', a', n', h', l', t')
    ensures v == v' && p == p' && q == q' && o == o' && c == c' && a == a' && n == n' && h == h' && l == l' && t == t'
  {
    hide U32Bytes, OutPointBytes, VarBytes, LittleEndian;
    var s9, t9 := U32Bytes(l) + U32Bytes(t), U32Bytes(l') + U32Bytes(t');
    var s8, t8 := h + s9, h' + t9;
    var s7, t7 := U32Bytes(n) + s8, U32Bytes(n') + t8;
    var s6, t6 := LittleEndian(a, 8) + s7, LittleEndian(a', 8) + t7;
    var s5, t5 := VarBytes(c) + s6, VarBytes(c') + t6;
    var s4, t4 := OutPointBytes(o) + s5, OutPointBytes(o') + t5;
    var s3, t3 := q + s4, q' + t4;
    var s2, t2 := p + s3, p' + t3;
    Split(U32Bytes(v), s2, U32Bytes(v'), t2);
    Split(p, s3, p', t3);
    Split(q, s4, q', t4);
    Split(OutPointBytes(o), s5, OutPointBytes(o'), t5);
    VarBytesExact(s5, c, s6);
    VarBytesExact(s5, c', t6);
    Split(LittleEndian(a, 8), s7, LittleEndian(a', 8), t7);
    Split(U32Bytes(n), s8, U32Bytes(n'), t8);
    Split(h, s9, h', t9);
    Split(U32Bytes(l), U32Bytes(t), U32Bytes(l'), U32Bytes(t'));
    U32Injective(v, v'); U32Injective(n, n'); U32Injective(l, l'); U32Injective(t, t');
    U64Injective(a, a');
    OutPointInjective(o, o');
  }

  lemma U32Injective(v: u32, w: u32)
    ensures U32Bytes(v) == U32Bytes(w) ==> v == w
  {
    hide LittleEndian, FromLittleEndian;
    Powers();
    LittleEndianReads(v, 4);
    LittleEndianReads(w, 4);
  }

  lemma U64Injective(v: u64, w: u64)
    ensures LittleEndian(v, 8) == LittleEndian(w, 8) ==> v == w
  {
    hide LittleEndian, FromLittleEndian;
    Powers();
    LittleEndianReads(v, 8);
    LittleEndianReads(w, 8);
  }

  lemma OutPointInjective(o: OutPoint, p: OutPoint)
    ensures OutPointBytes(o) == OutPointBytes(p) ==> o == p
  {
    hide LittleEndian;
    if OutPointBytes(o) == OutPointBytes(p) {
      Split(o.txid, LittleEndian(o.outputIndex, 4), p.txid, LittleEndian(p.outputIndex, 4));
      U32Injective(o.outputIndex, p.outputIndex);
    }
  }

  /** Fixed-width encodings concatenate injectively. */
  lemma {:induction false} FixedInjective<T(!new)>(encode: T -> seq<byte>, width: nat, xs: seq<T>, ys: seq<T>)
    requires width > 0 && (forall x :: |encode(x)| == width) && (forall x, y :: encode(x) == encode(y) ==> x == y)
    requires ManyBytes(encode, xs) == ManyBytes(encode, ys)
    ensures xs == ys
    decreases |xs|
  {
    if xs != [] && ys != [] {
      Split(encode(xs[0]), ManyBytes(encode, xs[1..]), encode(ys[0]), ManyBytes(encode, ys[1..]));
      FixedInjective(encode, width, xs[1..], ys[1..]);
      assert xs == [xs[0]] + xs[1..] && ys == [ys[0]] + ys[1..];
    }
  }

  lemma PrevoutsInjective(xs: seq<OutPoint>, ys: seq<OutPoint>)
    requires ManyBytes(OutPointBytes, xs) == ManyBytes(OutPointBytes, ys)
    ensures xs == ys
  {
    hide OutPointBytes;
    forall o: OutPoint, p: OutPoint ensures OutPointBytes(o) == OutPointBytes(p) ==> o == p { OutPointInjective(o, p); }
    FixedInjective(OutPointBytes, 36, xs, ys);
  }

  lemma SequencesInjective(xs: seq<u32>, ys: seq<u32>)
    requires ManyBytes(U32Bytes, xs) == ManyBytes(U32Bytes, ys)
    ensures xs == ys
  {
    hide U32Bytes;
    forall v: u32, w: u32 ensures U32Bytes(v) == U32Bytes(w) ==> v == w { U32Injective(v, w); }
    FixedInjective(U32Bytes, 4, xs, ys);
  }

  lemma OutputsInjective(xs: seq<TxOut>, ys: seq<TxOut>)
    requires ManyBytes(OutputBytes, xs) == ManyBytes(OutputBytes, ys)
    ensures xs == ys
  {
    hide OutputBytes, ReadOutput;
    OutputExact();
    ManyInjective(ReadOutput, OutputBytes, xs, ys);
  }

  lemma OneOutputInjective(x: TxOut, y: TxOut)
    requires OutputBytes(x) == OutputBytes(y)
    ensures x == y
  {
    hide OutputBytes, ReadOutput;
    OneOutputExact(OutputBytes(x), x, []);
    OneOutputExact(OutputBytes(x), y, []);
    assert OutputBytes(x) + [] == OutputBytes(x);
  }

  /** Equal views give equal digests, whatever the hash function does. */
  lemma ViewDeterminesDigest(sha256: Hash, s: Spend, t: Spend)
    requires Supported(s) && Supported(t) && ViewOf(s) == ViewOf(t)
    ensures SighashOf(sha256, s) == SighashOf(sha256, t)
  {
    hide ManyBytes, OutPointBytes, OutputBytes, U32Bytes, Layout, Prevouts, Sequences;
  }

  /** Exact commitment, for every supported hash type: when the hash separates the strings these two
      computations feed to it, their digests are equal if and only if the views are. For
      SIGHASH_ALL|FORKID the view holds every outpoint, sequence and output. */
  lemma DigestCommits(sha256: Hash, s: Spend, t: Spend)
    requires Supported(s) && Supported(t)
    ensures SighashOf(sha256, s).Ok? && SighashOf(sha256, t).Ok?
    ensures Separates(Double(sha256), s, t) ==>
      (SighashOf(sha256, s) == SighashOf(sha256, t) <==> ViewOf(s) == ViewOf(t))
  {
    hide ManyBytes, OutPointBytes, OutputBytes, U32Bytes, Prevouts, Sequences, Layout;
    if Separates(Double(sha256), s, t) && SighashOf(sha256, s) == SighashOf(sha256, t) {
      PreimageCommits(Double(sha256), s, t);
    }
    if ViewOf(s) == ViewOf(t) { ViewDeterminesDigest(sha256, s, t); }
  }

  lemma PreimageCommits(d: Hash, s: Spend, t: Spend)
    requires Supported(s) && Supported(t)
    requires Separates(d, s, t)
    requires d(Preimage(d, s).value) == d(Preimage(d, t).value)
    ensures ViewOf(s) == ViewOf(t)
  {
    hide ManyBytes, OutPointBytes, OutputBytes, U32Bytes, Prevouts, Sequences, Layout;
    assert Preimage(d, s) == Preimage(d, t);
    var x, y := s.tx.inputs[s.inputIndex], t.tx.inputs[t.inputIndex];
    LayoutInjective(
      Unsigned(s.tx.version), HashPrevouts(d, s), HashSequence(d, s), x.previousOutput, s.scriptCode,
      s.inputValue, x.sequence, HashOutputs(d, s).value, s.tx.lockTime, s.hashType,
      Unsigned(t.tx.version), HashPrevouts(d, t), HashSequence(d, t), y.previousOutput, t.scriptCode,
      t.inputValue, y.sequence, HashOutputs(d, t).value, t.tx.lockTime, t.hashType);
    ListsCommit(d, s, t);
    OutputsCommit(d, s, t);
  }

  lemma ListsCommit(d: Hash, s: Spend, t: Spend)
    requires Supported(s) && Supported(t) && s.hashType == t.hashType
    requires Separates(d, s, t)
    requires HashPrevouts(d, s) == HashPrevouts(d, t) && HashSequence(d, s) == HashSequence(d, t)
    ensures ViewOf(s).prevouts == ViewOf(t).prevouts && ViewOf(s).sequences == ViewOf(t).sequences
  {
    hide ManyBytes, OutPointBytes, OutputBytes, U32Bytes, Prevouts, Sequences, Preimage;
    if !AnyoneCanPay(s.hashType) {
      PrevoutsInjective(Prevouts(s.tx.inputs), Prevouts(t.tx.inputs));
      if Base(s.hashType) == 1 {
        SequencesInjective(Sequences(s.tx.inputs), Sequences(t.tx.inputs));
      }
    }
  }

  lemma OutputsCommit(d: Hash, s: Spend, t: Spend)
    requires Supported(s) && Supported(t) && s.hashType == t.hashType
    requires Separates(d, s, t)
    requires HashOutputs(d, s) == HashOutputs(d, t)
    ensures ViewOf(s).outputs == ViewOf(t).outputs
  {
    hide ManyBytes, OutPointBytes, OutputBytes, U32Bytes, Prevouts, Sequences, Preimage;
    if Base(s.hashType) == 1 {
      OutputsInjective(s.tx.outputs, t.tx.outputs);
    } else if Base(s.hashType) == 3 && s.inputIndex < |s.tx.outputs| && t.inputIndex < |t.tx.outputs| {
      OneOutputInjective(s.tx.outputs[s.inputIndex], t.tx.outputs[t.inputIndex]);
    }
  }

  /** Rewriting any `script_sig` never changes the digest. */
  lemma ScriptSigFree(sha256: Hash, s: Spend, inputs: Vec<TxIn>)
    requires Supported(s) && |inputs| == |s.tx.inputs|
    requires forall i :: 0 <= i < |inputs| ==>
      inputs[i].previousOutput == s.tx.inputs[i].previousOutput && inputs[i].sequence == s.tx.inputs[i].sequence
    ensures SighashOf(sha256, s.(tx := s.tx.(inputs := inputs))) == SighashOf(sha256, s)
  {
    var t := s.(tx := s.tx.(inputs := inputs));
    assert Prevouts(inputs) == Prevouts(s.tx.inputs) && Sequences(inputs) == Sequences(s.tx.inputs);
    ViewDeterminesDigest(sha256, s, t);
  }
}
