/** Bitcoin Cash transactions on the wire: canonical varints, the cursor-based decoder, the encoder.

    The `Read...` functions consume a prefix of a byte string; the class `Reader` and the methods
    are the source's cursor and loops, each tied to its function. Every reader is proved exact
    against its encoder: it accepts a string if and only if the string starts with an encoding. */
module TxCodec {
  import opened Bytes

  const MAX_TRANSACTION_BYTES: nat := 32 * 1024 * 1024
  const MAX_TRANSACTION_ELEMENTS: nat := 1_000_000

  type Txid = s: seq<byte> | |s| == 32 witness seq(32, i => 0)

  datatype OutPoint = OutPoint(txid: Txid, outputIndex: u32)

  datatype TxIn = TxIn(previousOutput: OutPoint, scriptSig: Vec<byte>, sequence: u32)

  datatype TxOut = TxOut(value: u64, scriptPubkey: Vec<byte>)

  datatype Transaction = Transaction(version: i32, inputs: Vec<TxIn>, outputs: Vec<TxOut>, lockTime: u32)

  datatype Error =
    | TransactionTooLarge(maxBytes: nat)
    | MalformedTransaction
    | NonCanonicalVarInt
    | TooManyTransactionElements(field: string)
    | TrailingTransactionData
    | InputIndexOutOfBounds(index: nat, inputCount: nat)
    | MissingForkId
    | UnsupportedSighashType(raw: u32)
    | InvalidSigningRequest
    | UnknownSigningRequestNetwork(id: byte)

  datatype Result<+T> = Ok(value: T) | Err(error: Error)

  /** The outcome of consuming a prefix of a byte string. */
  datatype Read<+T> = Got(value: T, rest: seq<byte>) | Failed(error: Error)

  // ---------------------------------------------------------------- encoders

  function VarInt(v: u64): (r: seq<byte>)
    ensures |r| > 0
  {
    if v <= 0xfc then [v]
    else if v <= 0xffff then [0xfd] + LittleEndian(v, 2)
    else if v <= 0xffff_ffff then [0xfe] + LittleEndian(v, 4)
    else [0xff] + LittleEndian(v, 8)
  }

  function VarBytes(b: Vec<byte>): (r: seq<byte>)
    ensures |r| > 0
  {
    VarInt(|b|) + b
  }

  function OutPointBytes(o: OutPoint): (r: seq<byte>)
    ensures |r| == 36
  {
    o.txid + LittleEndian(o.outputIndex, 4)
  }

  function InputBytes(i: TxIn): (r: seq<byte>)
    ensures |r| > 0
  {
    OutPointBytes(i.previousOutput) + (VarBytes(i.scriptSig) + LittleEndian(i.sequence, 4))
  }

  function OutputBytes(o: TxOut): (r: seq<byte>)
    ensures |r| > 0
  {
    LittleEndian(o.value, 8) + VarBytes(o.scriptPubkey)
  }

  function ManyBytes<T>(encode: T -> seq<byte>, items: seq<T>): seq<byte> {
    if items == [] then [] else encode(items[0]) + ManyBytes(encode, items[1..])
  }

  function Encoded(tx: Transaction): seq<byte> {
    LittleEndian(Unsigned(tx.version), 4)
    + (VarInt(|tx.inputs|) + (ManyBytes(InputBytes, tx.inputs)
    + (VarInt(|tx.outputs|) + (ManyBytes(OutputBytes, tx.outputs)
    + LittleEndian(tx.lockTime, 4)))))
  }

  // ---------------------------------------------------------------- readers

  function ReadFixed(s: seq<byte>, n: nat): (r: Read<seq<byte>>)
    ensures r.Got? ==> s == r.value + r.rest && |r.value| == n
  {
    if |s| < n then Failed(MalformedTransaction) else Got(s[..n], s[n..])
  }

  function ReadUnsigned(s: seq<byte>, n: nat): (r: Read<nat>)
    ensures r.Got? ==> r.value < Pow256(n)
  {
    var r := ReadFixed(s, n);
    if r.Failed? then Failed(r.error) else Got(FromLittleEndian(r.value), r.rest)
  }

  function ReadVarInt(s: seq<byte>): (r: Read<u64>) {
    Powers();
    if s == [] then Failed(MalformedTransaction)
    else if s[0] <= 0xfc then Got(s[0], s[1..])
    else
      var width := if s[0] == 0xfd then 2 else if s[0] == 0xfe then 4 else 8;
      var least := if s[0] == 0xfd then 0xfd else if s[0] == 0xfe then 0x1_0000 else 0x1_0000_0000;
      var r := ReadUnsigned(s[1..], width);
      if r.Failed? then Failed(r.error)
      else if r.value < least then Failed(NonCanonicalVarInt)
      else Got(r.value, r.rest)
  }

  function ReadCount(s: seq<byte>, field: string): (r: Read<nat>)
    ensures r.Got? ==> r.value <= MAX_TRANSACTION_ELEMENTS
  {
    var r := ReadVarInt(s);
    if r.Failed? then Failed(r.error)
    else if r.value > MAX_TRANSACTION_ELEMENTS then Failed(TooManyTransactionElements(field))
    else Got(r.value, r.rest)
  }

  function ReadVarBytes(s: seq<byte>): (r: Read<Vec<byte>>) {
    var r := ReadVarInt(s);
    if r.Failed? then Failed(r.error)
    else if |r.rest| < r.value then Failed(MalformedTransaction)
    else Got(r.rest[..r.value], r.rest[r.value..])
  }

  function ReadU32(s: seq<byte>): (r: Read<u32>) {
    Powers();
    var r := ReadUnsigned(s, 4);
    if r.Failed? then Failed(r.error) else Got(r.value, r.rest)
  }

  function ReadU64(s: seq<byte>): (r: Read<u64>) {
    Powers();
    var r := ReadUnsigned(s, 8);
    if r.Failed? then Failed(r.error) else Got(r.value, r.rest)
  }

  function ReadInput(s: seq<byte>): (r: Read<TxIn>) {
    var txid := ReadFixed(s, 32);
    if txid.Failed? then Failed(txid.error) else
    var index := ReadU32(txid.rest);
    if index.Failed? then Failed(index.error) else
    var script := ReadVarBytes(index.rest);
    if script.Failed? then Failed(script.error) else
    var sequence := ReadU32(script.rest);
    if sequence.Failed? then Failed(sequence.error) else
    Got(TxIn(OutPoint(txid.value, index.value), script.value, sequence.value), sequence.rest)
  }

  function ReadOutput(s: seq<byte>): (r: Read<TxOut>) {
    var value := ReadU64(s);
    if value.Failed? then Failed(value.error) else
    var script := ReadVarBytes(value.rest);
    if script.Failed? then Failed(script.error) else
    Got(TxOut(value.value, script.value), script.rest)
  }

  function ReadMany<T>(read: seq<byte> -> Read<T>, s: seq<byte>, count: nat): (r: Read<seq<T>>)
    ensures r.Got? ==> |r.value| == count
    decreases count
  {
    if count == 0 then Got([], s)
    else
      var head := read(s);
      if head.Failed? then Failed(head.error)
      else After([head.value], ReadMany(read, head.rest, count - 1))
  }

  /** Items already read, followed by the outcome of reading the others. */
  function After<T>(items: seq<T>, r: Read<seq<T>>): Read<seq<T>> {
    if r.Failed? then r else Got(items + r.value, r.rest)
  }

  function Decoded(bytes: seq<byte>): (r: Result<Transaction>) {
    if |bytes| > MAX_TRANSACTION_BYTES then Err(TransactionTooLarge(MAX_TRANSACTION_BYTES)) else
    var version := ReadU32(bytes);
    if version.Failed? then Err(version.error) else DecodedBody(version.value, version.rest)
  }

  /** After the version. */
  function DecodedBody(version: u32, s: seq<byte>): (r: Result<Transaction>) {
    var inputCount := ReadCount(s, "inputs");
    if inputCount.Failed? then Err(inputCount.error) else
    var inputs := ReadMany(ReadInput, inputCount.rest, inputCount.value);
    if inputs.Failed? then Err(inputs.error) else DecodedTail(version, inputs.value, inputs.rest)
  }

  /** After the inputs. */
  function DecodedTail(version: u32, inputs: Vec<TxIn>, s: seq<byte>): (r: Result<Transaction>) {
    var outputCount := ReadCount(s, "outputs");
    if outputCount.Failed? then Err(outputCount.error) else
    var outputs := ReadMany(ReadOutput, outputCount.rest, outputCount.value);
    if outputs.Failed? then Err(outputs.error) else
    var lockTime := ReadU32(outputs.rest);
    if lockTime.Failed? then Err(lockTime.error)
    else if lockTime.rest != [] then Err(TrailingTransactionData)
    else Ok(Transaction(Signed(version), inputs, outputs.value, lockTime.value))
  }

  // ---------------------------------------------------------------- exactness of the readers

  lemma UnsignedExact(s: seq<byte>, n: nat, v: nat, rest: seq<byte>)
    ensures ReadUnsigned(s, n) == Got(v, rest) <==> v < Pow256(n) && s == LittleEndian(v, n) + rest
  {
    if |s| >= n { LittleEndianWrites(s[..n]); }
    if v < Pow256(n) && s == LittleEndian(v, n) + rest {
      LittleEndianReads(v, n);
      assert s[..n] == LittleEndian(v, n) && s[n..] == rest;
    }
  }

  /** Each `u64` has exactly one accepted varint form, and no form is a prefix of another. */
  lemma VarIntExact(s: seq<byte>, v: u64, rest: seq<byte>)
    ensures ReadVarInt(s) == Got(v, rest) <==> s == VarInt(v) + rest
  {
    hide ReadUnsigned, LittleEndian;
    Powers();
    if s != [] {
      UnsignedExact(s[1..], 2, v, rest);
      UnsignedExact(s[1..], 4, v, rest);
      UnsignedExact(s[1..], 8, v, rest);
      assert s == [s[0]] + s[1..];
      HeadAndTail(s, v, [], rest);
      HeadAndTail(s, 0xfd, LittleEndian(v, 2), rest);
      HeadAndTail(s, 0xfe, LittleEndian(v, 4), rest);
      HeadAndTail(s, 0xff, LittleEndian(v, 8), rest);
    }
  }

  lemma HeadAndTail(s: seq<byte>, tag: int, body: seq<byte>, rest: seq<byte>)
    requires s != []
    ensures 0 <= tag < 256 ==> (s == ([tag] + body) + rest <==> s[0] == tag && s[1..] == body + rest)
  {
    if 0 <= tag < 256 {
      Associative([tag as byte], body, rest);
      if s[0] == tag { assert s == [s[0]] + s[1..]; }
    }
  }

  lemma VarBytesExact(s: seq<byte>, b: Vec<byte>, rest: seq<byte>)
    ensures ReadVarBytes(s) == Got(b, rest) <==> s == VarBytes(b) + rest
  {
    hide ReadVarInt, VarInt;
    var r := ReadVarInt(s);
    Associative(VarInt(|b|), b, rest);
    VarIntExact(s, |b|, b + rest);
    if r.Got? {
      VarIntExact(s, r.value, r.rest);
      if |r.rest| >= r.value {
        assert r.rest == r.rest[..r.value] + r.rest[r.value..];
      }
    }
  }

  lemma U32Exact(s: seq<byte>, v: u32, rest: seq<byte>)
    ensures ReadU32(s) == Got(v, rest) <==> s == LittleEndian(v, 4) + rest
  {
    hide ReadUnsigned, LittleEndian;
    Powers();
    UnsignedExact(s, 4, v, rest);
  }

  lemma U64Exact(s: seq<byte>, v: u64, rest: seq<byte>)
    ensures ReadU64(s) == Got(v, rest) <==> s == LittleEndian(v, 8) + rest
  {
    hide ReadUnsigned, LittleEndian;
    Powers();
    UnsignedExact(s, 8, v, rest);
  }

  /** A reader accepts a string if and only if it starts with an encoding. */
  ghost predicate Exact<T(!new)>(read: seq<byte> -> Read<T>, encode: T -> seq<byte>) {
    forall x: T, s: seq<byte>, rest: seq<byte> :: read(s) == Got(x, rest) <==> s == encode(x) + rest
  }

  lemma InputExact()
    ensures Exact(ReadInput, InputBytes)
  {
    forall x: TxIn, s: seq<byte>, rest: seq<byte>
      ensures ReadInput(s) == Got(x, rest) <==> s == InputBytes(x) + rest
    {
      OneInputExact(s, x, rest);
    }
  }

  lemma OneInputExact(s: seq<byte>, x: TxIn, rest: seq<byte>)
    ensures ReadInput(s) == Got(x, rest) <==> s == InputBytes(x) + rest
  {
    hide ReadU32, ReadVarBytes, VarBytes, LittleEndian;
    var txid, index := x.previousOutput.txid, LittleEndian(x.previousOutput.outputIndex, 4);
    var script, sequence := VarBytes(x.scriptSig), LittleEndian(x.sequence, 4);
    FourParts(txid, index, script, sequence, rest);
    if s == txid + (index + (script + (sequence + rest))) {
      assert s[..32] == txid && s[32..] == index + (script + (sequence + rest));
      U32Exact(s[32..], x.previousOutput.outputIndex, script + (sequence + rest));
      VarBytesExact(script + (sequence + rest), x.scriptSig, sequence + rest);
      U32Exact(sequence + rest, x.sequence, rest);
    }
    if ReadInput(s) == Got(x, rest) {
      var r1 := ReadU32(s[32..]);
      var r2 := ReadVarBytes(r1.rest);
      U32Exact(s[32..], r1.value, r1.rest);
      VarBytesExact(r1.rest, r2.value, r2.rest);
      U32Exact(r2.rest, x.sequence, rest);
    }
  }

  lemma FourParts(a: seq<byte>, b: seq<byte>, c: seq<byte>, d: seq<byte>, rest: seq<byte>)
    ensures ((a + b) + (c + d)) + rest == a + (b + (c + (d + rest)))
  {
    Associative(a + b, c + d, rest);
    Associative(a, b, (c + d) + rest);
    Associative(c, d, rest);
  }

  lemma OutputExact()
    ensures Exact(ReadOutput, OutputBytes)
  {
    forall x: TxOut, s: seq<byte>, rest: seq<byte>
      ensures ReadOutput(s) == Got(x, rest) <==> s == OutputBytes(x) + rest
    {
      OneOutputExact(s, x, rest);
    }
  }

  lemma OneOutputExact(s: seq<byte>, x: TxOut, rest: seq<byte>)
    ensures ReadOutput(s) == Got(x, rest) <==> s == OutputBytes(x) + rest
  {
    hide ReadU64, ReadVarBytes, VarBytes, LittleEndian;
    var script := VarBytes(x.scriptPubkey);
    Associative(LittleEndian(x.value, 8), script, rest);
    U64Exact(s, x.value, script + rest);
    VarBytesExact(script + rest, x.scriptPubkey, rest);
    var r := ReadU64(s);
    if r.Got? {
      U64Exact(s, r.value, r.rest);
      VarBytesExact(r.rest, x.scriptPubkey, rest);
    }
  }

  lemma {:induction false} ManyExact<T(!new)>(read: seq<byte> -> Read<T>, encode: T -> seq<byte>,
                                              s: seq<byte>, items: seq<T>, rest: seq<byte>)
    requires Exact(read, encode)
    ensures ReadMany(read, s, |items|) == Got(items, rest) <==> s == ManyBytes(encode, items) + rest
    decreases |items|
  {
    if items == [] {
      assert ManyBytes(encode, items) + rest == rest;
    } else {
      var x, others := items[0], items[1..];
      var tail := ManyBytes(encode, others) + rest;
      Associative(encode(x), ManyBytes(encode, others), rest);
      var head := read(s);
      assert read(s) == Got(x, tail) <==> s == encode(x) + tail;
      if head.Got? {
        ManyExact(read, encode, head.rest, others, rest);
        assert read(s) == Got(head.value, head.rest) <==> s == encode(head.value) + head.rest;
        assert items == [x] + others;
        var r := ReadMany(read, head.rest, |others|);
        if r.Got? {
          assert ([head.value] + r.value)[0] == head.value && ([head.value] + r.value)[1..] == r.value;
        }
      }
    }
  }

  /** The encoders are injective on lists, even with no count: concatenated encodings parse uniquely. */
  lemma {:induction false} ManyInjective<T(!new)>(read: seq<byte> -> Read<T>, encode: T -> seq<byte>,
                                                  xs: seq<T>, ys: seq<T>)
    requires Exact(read, encode) && (forall x :: |encode(x)| > 0)
    requires ManyBytes(encode, xs) == ManyBytes(encode, ys)
    ensures xs == ys
    decreases |xs|
  {
    if xs != [] && ys != [] {
      var s := ManyBytes(encode, xs);
      var tx, ty := ManyBytes(encode, xs[1..]), ManyBytes(encode, ys[1..]);
      assert read(s) == Got(xs[0], tx) <==> s == encode(xs[0]) + tx;
      assert read(s) == Got(ys[0], ty) <==> s == encode(ys[0]) + ty;
      ManyInjective(read, encode, xs[1..], ys[1..]);
      assert xs == [xs[0]] + xs[1..] && ys == [ys[0]] + ys[1..];
    }
  }

  lemma CountExact(s: seq<byte>, field: string, v: nat, rest: seq<byte>)
    ensures ReadCount(s, field) == Got(v, rest) <==> v <= MAX_TRANSACTION_ELEMENTS && s == VarInt(v) + rest
  {
    hide ReadVarInt, VarInt;
    if v <= MAX_TRANSACTION_ELEMENTS { VarIntExact(s, v, rest); }
  }

  ghost predicate WithinLimits(tx: Transaction) {
    |tx.inputs| <= MAX_TRANSACTION_ELEMENTS && |tx.outputs| <= MAX_TRANSACTION_ELEMENTS
  }

  /** The transaction codec is exact both ways: a byte string decodes to a transaction if and only if
      it is that transaction's encoding, within the element and size limits. */
  lemma DecodeExact(bytes: seq<byte>, tx: Transaction)
    ensures Decoded(bytes) == Ok(tx)
       <==> bytes == Encoded(tx) && WithinLimits(tx) && |bytes| <= MAX_TRANSACTION_BYTES
  {
    if bytes == Encoded(tx) && WithinLimits(tx) && |bytes| <= MAX_TRANSACTION_BYTES { DecodeComplete(bytes, tx); }
    if Decoded(bytes) == Ok(tx) { DecodeSound(bytes, tx); }
  }

  lemma DecodeComplete(bytes: seq<byte>, tx: Transaction)
    requires bytes == Encoded(tx) && WithinLimits(tx) && |bytes| <= MAX_TRANSACTION_BYTES
    ensures Decoded(bytes) == Ok(tx)
  {
    hide ReadU32, ReadCount, ReadMany, ReadInput, ReadOutput, VarInt, LittleEndian, ManyBytes, InputBytes, OutputBytes;
    var lock := LittleEndian(tx.lockTime, 4);
    var s4 := ManyBytes(OutputBytes, tx.outputs) + lock;
    var s3 := VarInt(|tx.outputs|) + s4;
    var s2 := ManyBytes(InputBytes, tx.inputs) + s3;
    var s1 := VarInt(|tx.inputs|) + s2;
    InputExact();
    OutputExact();
    U32Exact(bytes, Unsigned(tx.version), s1);
    CountExact(s1, "inputs", |tx.inputs|, s2);
    ManyExact(ReadInput, InputBytes, s2, tx.inputs, s3);
    CountExact(s3, "outputs", |tx.outputs|, s4);
    ManyExact(ReadOutput, OutputBytes, s4, tx.outputs, lock);
    U32Exact(lock, tx.lockTime, []);
    assert lock == lock + [];
  }

  lemma DecodeSound(bytes: seq<byte>, tx: Transaction)
    requires Decoded(bytes) == Ok(tx)
    ensures bytes == Encoded(tx) && WithinLimits(tx) && |bytes| <= MAX_TRANSACTION_BYTES
  {
    hide ReadU32, ReadCount, ReadMany, ReadInput, ReadOutput, VarInt, LittleEndian, ManyBytes, InputBytes, OutputBytes;
    var version := ReadU32(bytes);
    var inputCount := ReadCount(version.rest, "inputs");
    var inputs := ReadMany(ReadInput, inputCount.rest, inputCount.value);
    var outputCount := ReadCount(inputs.rest, "outputs");
    var outputs := ReadMany(ReadOutput, outputCount.rest, outputCount.value);
    var lock := ReadU32(outputs.rest);
    InputExact();
    OutputExact();
    U32Exact(bytes, version.value, version.rest);
    CountExact(version.rest, "inputs", inputCount.value, inputCount.rest);
    ManyExact(ReadInput, InputBytes, inputCount.rest, inputs.value, inputs.rest);
    CountExact(inputs.rest, "outputs", outputCount.value, outputCount.rest);
    ManyExact(ReadOutput, OutputBytes, outputCount.rest, outputs.value, outputs.rest);
    U32Exact(outputs.rest, lock.value, lock.rest);
    assert outputs.rest == LittleEndian(lock.value, 4);
  }

  // ---------------------------------------------------------------- the cursor and its loops

  /** The source's `Reader`: a cursor that advances over borrowed bytes. */
  class Reader {
    const bytes: seq<byte>
    var position: nat

    constructor (bytes: seq<byte>)
      ensures Valid() && this.bytes == bytes && Rest() == bytes
    {
      this.bytes := bytes;
      position := 0;
    }

    ghost predicate Valid()
      reads this
    {
      position <= |bytes|
    }

    ghost function Rest(): seq<byte>
      requires Valid()
      reads this
    {
      bytes[position..]
    }

    /** The cursor returned what the function on the unread bytes returns, and moved past it. */
    ghost predicate Returned<T>(r: Result<T>, spec: Read<T>)
      requires Valid()
      reads this
    {
      match spec
      case Got(v, rest) => r == Ok(v) && Rest() == rest
      case Failed(e) => r == Err(e)
    }

    method ReadArray(n: nat) returns (r: Result<seq<byte>>)
      requires Valid()
      modifies this
      ensures Valid() && Returned(r, ReadFixed(old(Rest()), n))
    {
      var end := position + n;
      if end > |bytes| {
        return Err(MalformedTransaction);
      }
      assert Rest()[..end - position] == bytes[position..end] && Rest()[end - position..] == bytes[end..];
      r := Ok(bytes[position..end]);
      position := end;
    }

    method NextU32() returns (r: Result<u32>)
      requires Valid()
      modifies this
      ensures Valid() && Returned(r, ReadU32(old(Rest())))
    {
      Powers();
      var a := ReadArray(4);
      if a.Err? {
        return Err(a.error);
      }
      return Ok(FromLittleEndian(a.value));
    }

    method NextU64() returns (r: Result<u64>)
      requires Valid()
      modifies this
      ensures Valid() && Returned(r, ReadU64(old(Rest())))
    {
      Powers();
      var a := ReadArray(8);
      if a.Err? {
        return Err(a.error);
      }
      return Ok(FromLittleEndian(a.value));
    }

    method NextVarInt() returns (r: Result<u64>)
      requires Valid()
      modifies this
      ensures Valid() && Returned(r, ReadVarInt(old(Rest())))
    {
      Powers();
      var tag := ReadArray(1);
      if tag.Err? {
        return Err(tag.error);
      }
      var first := tag.value[0];
      if first <= 0xfc {
        return Ok(first);
      }
      var a := ReadArray(if first == 0xfd then 2 else if first == 0xfe then 4 else 8);
      if a.Err? {
        return Err(a.error);
      }
      var value := FromLittleEndian(a.value);
      if (first == 0xfd && value < 0xfd) || (first == 0xfe && value <= 0xffff)
         || (first == 0xff && value <= 0xffff_ffff) {
        return Err(NonCanonicalVarInt);
      }
      return Ok(value);
    }

    method NextCount(field: string) returns (r: Result<nat>)
      requires Valid()
      modifies this
      ensures Valid() && Returned(r, ReadCount(old(Rest()), field))
    {
      var v := NextVarInt();
      if v.Err? {
        return Err(v.error);
      }
      if v.value > MAX_TRANSACTION_ELEMENTS {
        return Err(TooManyTransactionElements(field));
      }
      return Ok(v.value);
    }

    method NextVarBytes() returns (r: Result<Vec<byte>>)
      requires Valid()
      modifies this
      ensures Valid() && Returned(r, ReadVarBytes(old(Rest())))
    {
      var v := NextVarInt();
      if v.Err? {
        return Err(v.error);
      }
      var end := position + v.value;
      if end > |bytes| {
        return Err(MalformedTransaction);
      }
      assert Rest()[..end - position] == bytes[position..end] && Rest()[end - position..] == bytes[end..];
      r := Ok(bytes[position..end]);
      position := end;
    }

    method NextInput() returns (r: Result<TxIn>)
      requires Valid()
      modifies this
      ensures Valid() && Returned(r, ReadInput(old(Rest())))
    {
      hide ReadU32, ReadVarBytes;
      var txid := ReadArray(32);
      if txid.Err? { return Err(txid.error); }
      var index := NextU32();
      if index.Err? { return Err(index.error); }
      var script := NextVarBytes();
      if script.Err? { return Err(script.error); }
      var sequence := NextU32();
      if sequence.Err? { return Err(sequence.error); }
      return Ok(TxIn(OutPoint(txid.value, index.value), script.value, sequence.value));
    }

    method NextOutput() returns (r: Result<TxOut>)
      requires Valid()
      modifies this
      ensures Valid() && Returned(r, ReadOutput(old(Rest())))
    {
      hide ReadU64, ReadVarBytes;
      var value := NextU64();
      if value.Err? { return Err(value.error); }
      var script := NextVarBytes();
      if script.Err? { return Err(script.error); }
      return Ok(TxOut(value.value, script.value));
    }

    method NextInputs(count: nat) returns (r: Result<seq<TxIn>>)
      requires Valid()
      modifies this
      ensures Valid() && Returned(r, ReadMany(ReadInput, old(Rest()), count))
    {
      hide ReadInput;
      var inputs: seq<TxIn> := [];
      AfterNone(ReadMany(ReadInput, Rest(), count));
      for i := 0 to count
        invariant Valid()
        invariant ReadMany(ReadInput, old(Rest()), count) == After(inputs, ReadMany(ReadInput, Rest(), count - i))
      {
        ManyStep(ReadInput, Rest(), count - i, inputs);
        var input := NextInput();
        if input.Err? { return Err(input.error); }
        inputs := inputs + [input.value];
      }
      assert inputs + [] == inputs;
      r := Ok(inputs);
    }

    method NextOutputs(count: nat) returns (r: Result<seq<TxOut>>)
      requires Valid()
      modifies this
      ensures Valid() && Returned(r, ReadMany(ReadOutput, old(Rest()), count))
    {
      hide ReadOutput;
      var outputs: seq<TxOut> := [];
      AfterNone(ReadMany(ReadOutput, Rest(), count));
      for i := 0 to count
        invariant Valid()
        invariant ReadMany(ReadOutput, old(Rest()), count) == After(outputs, ReadMany(ReadOutput, Rest(), count - i))
      {
        ManyStep(ReadOutput, Rest(), count - i, outputs);
        var output := NextOutput();
        if output.Err? { return Err(output.error); }
        outputs := outputs + [output.value];
      }
      assert outputs + [] == outputs;
      r := Ok(outputs);
    }
  }

  lemma AfterNone<T>(r: Read<seq<T>>)
    ensures After([], r) == r
  {
    if r.Got? { assert [] + r.value == r.value; }
  }

  lemma ManyStep<T>(read: seq<byte> -> Read<T>, s: seq<byte>, count: nat, items: seq<T>)
    requires count > 0
    ensures read(s).Failed? ==> After(items, ReadMany(read, s, count)) == Failed(read(s).error)
    ensures read(s).Got? ==>
      After(items, ReadMany(read, s, count)) == After(items + [read(s).value], ReadMany(read, read(s).rest, count - 1))
  {
    if read(s).Got? {
      var r := ReadMany(read, read(s).rest, count - 1);
      if r.Got? { Associative(items, [read(s).value], r.value); }
    }
  }

  method Decode(bytes: seq<byte>) returns (r: Result<Transaction>)
    ensures r == Decoded(bytes)
  {
    hide ReadU32, DecodedBody;
    if |bytes| > MAX_TRANSACTION_BYTES {
      return Err(TransactionTooLarge(MAX_TRANSACTION_BYTES));
    }
    var reader := new Reader(bytes);
    var version := reader.NextU32();
    if version.Err? { return Err(version.error); }
    r := DecodeBody(reader, version.value);
  }

  method DecodeBody(reader: Reader, version: u32) returns (r: Result<Transaction>)
    requires reader.Valid()
    modifies reader
    ensures r == DecodedBody(version, old(reader.Rest()))
  {
    hide ReadCount, ReadMany, ReadInput, DecodedTail;
    var inputCount := reader.NextCount("inputs");
    if inputCount.Err? { return Err(inputCount.error); }
    var inputs := reader.NextInputs(inputCount.value);
    if inputs.Err? { return Err(inputs.error); }
    r := DecodeTail(reader, version, inputs.value);
  }

  method DecodeTail(reader: Reader, version: u32, inputs: Vec<TxIn>) returns (r: Result<Transaction>)
    requires reader.Valid()
    modifies reader
    ensures r == DecodedTail(version, inputs, old(reader.Rest()))
  {
    hide ReadU32, ReadCount, ReadMany, ReadOutput;
    var outputCount := reader.NextCount("outputs");
    if outputCount.Err? { return Err(outputCount.error); }
    var outputs := reader.NextOutputs(outputCount.value);
    if outputs.Err? { return Err(outputs.error); }
    var lockTime := reader.NextU32();
    if lockTime.Err? { return Err(lockTime.error); }
    assert reader.position == |reader.bytes| <==> reader.Rest() == [];
    if reader.position != |reader.bytes| {
      return Err(TrailingTransactionData);
    }
    return Ok(Transaction(Signed(version), inputs, outputs.value, lockTime.value));
  }

  lemma {:induction false} ManySnoc<T>(encode: T -> seq<byte>, items: seq<T>, i: nat)
    requires i < |items|
    ensures ManyBytes(encode, items[..i + 1]) == ManyBytes(encode, items[..i]) + encode(items[i])
    decreases i
  {
    if i == 0 {
      assert items[..1] == [items[0]];
      assert ManyBytes(encode, [items[0]]) == encode(items[0]) + ManyBytes(encode, []);
    } else {
      ManySnoc(encode, items[1..], i - 1);
      assert items[..i + 1][1..] == items[1..][..i] && items[..i][1..] == items[1..][..i - 1];
      Associative(encode(items[0]), ManyBytes(encode, items[1..][..i - 1]), encode(items[i]));
    }
  }

  method Encode(tx: Transaction) returns (encoded: seq<byte>)
    ensures encoded == Encoded(tx)
  {
    hide ManyBytes, InputBytes, OutputBytes, VarInt, LittleEndian;
    encoded := LittleEndian(Unsigned(tx.version), 4);
    encoded := encoded + VarInt(|tx.inputs|);
    ghost var base := encoded;
    ManyNone(InputBytes);
    for i := 0 to |tx.inputs|
      invariant encoded == base + ManyBytes(InputBytes, tx.inputs[..i])
    {
      ManySnoc(InputBytes, tx.inputs, i);
      encoded := encoded + InputBytes(tx.inputs[i]);
    }
    assert tx.inputs[..|tx.inputs|] == tx.inputs;
    encoded := encoded + VarInt(|tx.outputs|);
    ghost var middle := encoded;
    ManyNone(OutputBytes);
    for i := 0 to |tx.outputs|
      invariant encoded == middle + ManyBytes(OutputBytes, tx.outputs[..i])
    {
      ManySnoc(OutputBytes, tx.outputs, i);
      encoded := encoded + OutputBytes(tx.outputs[i]);
    }
    assert tx.outputs[..|tx.outputs|] == tx.outputs;
    encoded := encoded + LittleEndian(tx.lockTime, 4);
  }

  lemma ManyNone<T>(encode: T -> seq<byte>)
    ensures ManyBytes(encode, []) == []
  {}
}
