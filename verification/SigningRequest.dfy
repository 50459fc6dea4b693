/** The framed Bitcoin Cash signing request, its review, and the final verification of a review. */
module SigningRequest {
  import opened Bytes
  import opened Networks
  import opened TxCodec
  import opened Sighash

  const MAX_REQUEST_BYTES: nat := 32 * 1024 * 1024
  const MAX_REVIEW_MATERIAL_BYTES: nat := 1_000_000
  const MAX_REVIEW_SUMMARY_BYTES: nat := 4 * 1024
  const REVIEW_ARTIFACT_SCHEMA_VERSION: nat := 2
  const SIGHASH_ALL: u32 := 0x41

  /** A request: the network and what to sign on it. */
  datatype Request = Request(network: BitcoinCashNetwork, spend: Spend)

  function NetworkId(n: BitcoinCashNetwork): byte {
    match n
    case Mainnet => 0 case Testnet3 => 1 case Testnet4 => 2 case Scalenet => 3 case Chipnet => 4 case Regtest => 5
  }

  function NetworkFromId(id: byte): Result<BitcoinCashNetwork> {
    match id
    case 0 => Ok(Mainnet) case 1 => Ok(Testnet3) case 2 => Ok(Testnet4)
    case 3 => Ok(Scalenet) case 4 => Ok(Chipnet) case 5 => Ok(Regtest)
    case _ => Err(UnknownSigningRequestNetwork(id))
  }

  // ---------------------------------------------------------------- the wire format

  /** What the source's types guarantee of a request value. */
  ghost predicate WellTyped(r: Request) {
    && FromConsensus(r.spend.hashType).Ok?
    && r.spend.inputIndex < 0x1_0000_0000_0000_0000
    && |Encoded(r.spend.tx)| < 0x1_0000_0000_0000_0000
  }

  function Magic(): (r: seq<byte>)
    ensures |r| == 5
  {
    Ascii("BCHR") + [1]
  }

  function EncodedRequest(r: Request): seq<byte>
    requires WellTyped(r)
  {
    var s := r.spend;
    var tx := Encoded(s.tx);
    Magic() + ([NetworkId(r.network)] + (U32Bytes(s.hashType) + (LittleEndian(s.inputIndex, 8)
    + (LittleEndian(s.inputValue, 8)
    + (LittleEndian(|s.scriptCode|, 8) + (LittleEndian(|tx|, 8) + (s.scriptCode + tx)))))))
  }

  function DecodedRequest(bytes: seq<byte>): (r: Result<Request>) {
    Powers();
    if |bytes| > MAX_REQUEST_BYTES || |bytes| < 42 then Err(InvalidSigningRequest)
    else if bytes[..5] != Magic() then Err(InvalidSigningRequest)
    else
      var network := NetworkFromId(bytes[5]);
      if network.Err? then Err(network.error) else
      var hashType := FromConsensus(FromLittleEndian(bytes[6..10]));
      if hashType.Err? then Err(hashType.error) else
      var inputIndex := FromLittleEndian(bytes[10..18]);
      var inputValue := FromLittleEndian(bytes[18..26]);
      var scriptEnd := 42 + FromLittleEndian(bytes[26..34]);
      var transactionEnd := scriptEnd + FromLittleEndian(bytes[34..42]);
      if transactionEnd != |bytes| then Err(InvalidSigningRequest) else
      var tx := Decoded(bytes[scriptEnd..]);
      if tx.Err? then Err(tx.error)
      else Ok(Request(network.value, Spend(tx.value, inputIndex, bytes[42..scriptEnd], inputValue, hashType.value)))
  }

  lemma Cut(bytes: seq<byte>, k: nat, a: seq<byte>, rest: seq<byte>)
    requires k <= |bytes| && bytes[k..] == a + rest
    ensures k + |a| <= |bytes| && bytes[k..k + |a|] == a && bytes[k + |a|..] == rest
  {
    assert |bytes[k..]| == |a| + |rest|;
    assert bytes[k..k + |a|] == bytes[k..][..|a|] == a;
    assert bytes[k + |a|..] == bytes[k..][|a|..] == rest;
  }

  /** The header fields of a request, as cut out of its bytes. */
  lemma HeaderFields(bytes: seq<byte>, magic: seq<byte>, id: byte, ht: seq<byte>, index: seq<byte>, value: seq<byte>,
                     scriptLength: seq<byte>, txLength: seq<byte>, body: seq<byte>)
    requires |magic| == 5 && |ht| == 4 && |index| == |value| == |scriptLength| == |txLength| == 8
    ensures bytes == magic + ([id] + (ht + (index + (value + (scriptLength + (txLength + body))))))
       <==> && |bytes| == 42 + |body| && bytes[..5] == magic && bytes[5] == id && bytes[6..10] == ht
            && bytes[10..18] == index
            && bytes[18..26] == value && bytes[26..34] == scriptLength && bytes[34..42] == txLength
            && bytes[42..] == body
  {
    var whole := magic + ([id] + (ht + (index + (value + (scriptLength + (txLength + body))))));
    if bytes == whole {
      assert bytes[0..] == bytes;
      Cut(bytes, 0, magic, [id] + (ht + (index + (value + (scriptLength + (txLength + body))))));
      Cut(bytes, 5, [id], ht + (index + (value + (scriptLength + (txLength + body)))));
      Cut(bytes, 6, ht, index + (value + (scriptLength + (txLength + body))));
      Cut(bytes, 10, index, value + (scriptLength + (txLength + body)));
      Cut(bytes, 18, value, scriptLength + (txLength + body));
      Cut(bytes, 26, scriptLength, txLength + body);
      Cut(bytes, 34, txLength, body);
      assert bytes[5..6][0] == id;
    }
    if |bytes| >= 42 {
      assert bytes[34..] == bytes[34..42] + bytes[42..];
      assert bytes[26..] == bytes[26..34] + bytes[34..];
      assert bytes[18..] == bytes[18..26] + bytes[26..];
      assert bytes[10..] == bytes[10..18] + bytes[18..];
      assert bytes[6..] == bytes[6..10] + bytes[10..];
      assert bytes[5..] == [bytes[5]] + bytes[6..];
      assert bytes == bytes[..5] + bytes[5..];
    }
  }

  lemma NumberField(field: seq<byte>, v: nat)
    requires v < Pow256(|field|)
    ensures FromLittleEndian(field) == v <==> field == LittleEndian(v, |field|)
  {
    LittleEndianReads(v, |field|);
    LittleEndianWrites(field);
  }

  /** The request codec is exact both ways. In particular every accepted request re-encodes to its
      input, so the canonicality test of `review_transaction` never fails after a decode. */
  lemma RequestExact(bytes: seq<byte>, r: Request)
    requires WellTyped(r)
    ensures DecodedRequest(bytes) == Ok(r)
       <==> bytes == EncodedRequest(r) && WithinLimits(r.spend.tx) && |bytes| <= MAX_REQUEST_BYTES
  {
    hide Encoded, Decoded, Magic, U32Bytes, LittleEndian, FromLittleEndian, FromConsensus;
    Powers();
    var s := r.spend;
    var tx := Encoded(s.tx);
    HeaderFields(bytes, Magic(), NetworkId(r.network), U32Bytes(s.hashType), LittleEndian(s.inputIndex, 8),
                 LittleEndian(s.inputValue, 8), LittleEndian(|s.scriptCode|, 8), LittleEndian(|tx|, 8),
                 s.scriptCode + tx);
    if |bytes| >= 42 {
      HashTypeField(bytes[6..10], s.hashType);
      NumberField(bytes[10..18], s.inputIndex);
      NumberField(bytes[18..26], s.inputValue);
      NumberField(bytes[26..34], |s.scriptCode|);
      NumberField(bytes[34..42], |tx|);
      NetworkRoundTrip(bytes[5], r.network);
      BodyExact(bytes, s, FromLittleEndian(bytes[26..34]), FromLittleEndian(bytes[34..42]));
    }
  }

  lemma HashTypeField(field: seq<byte>, v: u32)
    requires |field| == 4
    ensures FromLittleEndian(field) < 0x1_0000_0000
    ensures FromLittleEndian(field) == v <==> field == U32Bytes(v)
    ensures FromConsensus(FromLittleEndian(field)) == Ok(v) ==> FromLittleEndian(field) == v
  {
    hide LittleEndian, FromLittleEndian;
    Powers();
    NumberField(field, v);
  }

  lemma NetworkRoundTrip(id: byte, n: BitcoinCashNetwork)
    ensures NetworkFromId(id) == Ok(n) <==> id == NetworkId(n)
  {}

  lemma BodyExact(bytes: seq<byte>, s: Spend, scriptLength: nat, txLength: nat)
    requires |bytes| >= 42
    ensures (&& 42 + scriptLength + txLength == |bytes|
             && bytes[42..42 + scriptLength] == s.scriptCode && Decoded(bytes[42 + scriptLength..]) == Ok(s.tx)
             && |bytes| <= MAX_REQUEST_BYTES)
       <==> && bytes[42..] == s.scriptCode + Encoded(s.tx)
            && scriptLength == |s.scriptCode| && txLength == |Encoded(s.tx)|
            && WithinLimits(s.tx) && |bytes| <= MAX_REQUEST_BYTES
  {
    hide Encoded, Decoded;
    if 42 + scriptLength <= |bytes| {
      DecodeExact(bytes[42 + scriptLength..], s.tx);
      assert bytes[42..] == bytes[42..42 + scriptLength] + bytes[42 + scriptLength..];
      if bytes[42..] == s.scriptCode + Encoded(s.tx) && scriptLength == |s.scriptCode| {
        Split(bytes[42..42 + scriptLength], bytes[42 + scriptLength..], s.scriptCode, Encoded(s.tx));
      }
    }
  }

  lemma DecodedWellTyped(bytes: seq<byte>)
    ensures DecodedRequest(bytes).Ok? ==> WellTyped(DecodedRequest(bytes).value)
  {
    hide Encoded, Decoded, Magic, FromLittleEndian;
    Powers();
    var r := DecodedRequest(bytes);
    if r.Ok? {
      DecodeExact(bytes[42 + |r.value.spend.scriptCode|..], r.value.spend.tx);
    }
  }

  // ---------------------------------------------------------------- review

  datatype SignatureAlgorithm = Ecdsa | Schnorr

  /** A suite as its constructor leaves it: the hash type is always SIGHASH_ALL|FORKID. */
  datatype Suite = Suite(network: BitcoinCashNetwork, algorithm: SignatureAlgorithm, verificationKey: seq<byte>)

  datatype ReviewArtifact = ReviewArtifact(
    schemaVersion: nat, network: BitcoinCashNetwork, reviewDigest: Digest, signingMessageDigest: Digest,
    summary: seq<byte>, reviewedMaterial: seq<byte>)

  datatype ReviewError =
    | ReviewedMaterialTooLong(maxBytes: nat)
    | MissingReviewedMaterial
    | SummaryTooLong(maxBytes: nat)
    | UnsupportedOperation(operation: string)
    | UnsupportedSchemaVersion(expected: nat, actual: nat)
    | InvalidFinalizedSignature(reason: string)

  datatype Review = Reviewed(artifact: ReviewArtifact) | Refused(error: ReviewError)

  /** The parts outside this model: SHA-256, the display text, and signature verification. */
  datatype World = World(
    sha256: Hash,
    describe: Request -> seq<byte>,
    verifies: (SignatureAlgorithm, seq<byte>, Digest, seq<byte>) -> bool)

  function MaterialError(e: Error): ReviewError {
    UnsupportedOperation(
      match e
      case UnsupportedSighashType(_) => "Bitcoin Cash request with unsupported hashtype"
      case MissingForkId => "Bitcoin Cash request with unsupported hashtype"
      case _ => "malformed Bitcoin Cash signing request")
  }

  function NetworkText(n: BitcoinCashNetwork): string {
    match n
    case Mainnet => "bitcoin-cash.mainnet"
    case Testnet3 => "bitcoin-cash.testnet3"
    case Testnet4 => "bitcoin-cash.testnet4"
    case Scalenet => "bitcoin-cash.scalenet"
    case Chipnet => "bitcoin-cash.chipnet"
    case Regtest => "bitcoin-cash.regtest"
  }

  function ReviewBytes(n: BitcoinCashNetwork, signing: Digest, request: Digest, summary: seq<byte>): seq<byte> {
    Ascii("catomicals.bitcoin-cash.review.v2\0") + (Ascii(NetworkText(n)) + (signing + (request
    + (LittleEndian(|summary|, 8) + summary))))
  }

  function ReviewDigest(w: World, n: BitcoinCashNetwork, signing: Digest, request: Digest, summary: seq<byte>): Digest {
    w.sha256(ReviewBytes(n, signing, request, summary))
  }

  /** `ReviewArtifact::new`. */
  function NewArtifact(n: BitcoinCashNetwork, reviewDigest: Digest, signing: Digest, summary: seq<byte>,
                       material: seq<byte>): Review {
    if |summary| > MAX_REVIEW_SUMMARY_BYTES then Refused(SummaryTooLong(MAX_REVIEW_SUMMARY_BYTES))
    else if material == [] then Refused(MissingReviewedMaterial)
    else if |material| > MAX_REVIEW_MATERIAL_BYTES then Refused(ReviewedMaterialTooLong(MAX_REVIEW_MATERIAL_BYTES))
    else Reviewed(ReviewArtifact(REVIEW_ARTIFACT_SCHEMA_VERSION, n, reviewDigest, signing, summary, material))
  }

  ghost function ReviewTransaction(w: World, suite: Suite, material: seq<byte>): (r: Review) {
    if |material| > MAX_REVIEW_MATERIAL_BYTES then Refused(ReviewedMaterialTooLong(MAX_REVIEW_MATERIAL_BYTES)) else
    var request := DecodedRequest(material);
    if request.Err? then Refused(MaterialError(request.error)) else
    DecodedWellTyped(material);
    var canonical := EncodedRequest(request.value);
    if canonical != material then Refused(MaterialError(InvalidSigningRequest))
    else if request.value.network != suite.network then
      Refused(UnsupportedOperation("Bitcoin Cash request for another network"))
    else if request.value.spend.hashType != SIGHASH_ALL then
      Refused(MaterialError(UnsupportedSighashType(request.value.spend.hashType)))
    else
      var signing := SighashOf(w.sha256, request.value.spend);
      if signing.Err? then Refused(MaterialError(signing.error))
      else
        var summary := w.describe(request.value);
        NewArtifact(suite.network, ReviewDigest(w, suite.network, signing.value, w.sha256(canonical), summary),
                    signing.value, summary, canonical)
  }

  ghost function VerifyFinalized(w: World, suite: Suite, review: ReviewArtifact, signature: seq<byte>): (r: Verdict) {
    if review.schemaVersion != REVIEW_ARTIFACT_SCHEMA_VERSION then
      Rejected(UnsupportedSchemaVersion(REVIEW_ARTIFACT_SCHEMA_VERSION, review.schemaVersion))
    else if review.network != suite.network then
      Rejected(InvalidFinalizedSignature("review artifact binding mismatch"))
    else
      var expected := ReviewTransaction(w, suite, review.reviewedMaterial);
      if expected.Refused? then Rejected(InvalidFinalizedSignature("review artifact cannot be reproduced"))
      else if expected.artifact != review then Rejected(InvalidFinalizedSignature("review artifact binding mismatch"))
      else if w.verifies(suite.algorithm, suite.verificationKey, expected.artifact.signingMessageDigest, signature)
      then Verified
      else Rejected(InvalidFinalizedSignature("signature verification failed"))
  }

  datatype Verdict = Verified | Rejected(error: ReviewError)

  /** Exactly when a review succeeds and what it then says: the material is the encoding of a request
      for the suite's network and hash type whose input exists, and it is kept byte for byte. */
  lemma ReviewExact(w: World, suite: Suite, material: seq<byte>, artifact: ReviewArtifact)
    ensures ReviewTransaction(w, suite, material) == Reviewed(artifact) ==>
      exists r: Request :: ReviewedAs(w, suite, material, artifact, r)
    ensures forall r: Request :: ReviewedAs(w, suite, material, artifact, r) ==>
      ReviewTransaction(w, suite, material) == Reviewed(artifact)
  {
    hide DecodedRequest, EncodedRequest, Encoded, SighashOf, ReviewDigest;
    var d := DecodedRequest(material);
    if d.Ok? {
      DecodedWellTyped(material);
      RequestExact(material, d.value);
      SighashOkIff(w.sha256, d.value.spend);
      if ReviewTransaction(w, suite, material) == Reviewed(artifact) {
        assert ReviewedAs(w, suite, material, artifact, d.value);
      }
    }
    forall r: Request | ReviewedAs(w, suite, material, artifact, r)
      ensures ReviewTransaction(w, suite, material) == Reviewed(artifact)
    {
      RequestExact(material, r);
      SighashOkIff(w.sha256, r.spend);
      EncodedNonEmpty(r);
    }
  }

  /** A request's own encoding, within the limits. */
  ghost predicate EncodedAs(material: seq<byte>, r: Request) {
    WellTyped(r) && WithinLimits(r.spend.tx) && |material| <= MAX_REQUEST_BYTES && material == EncodedRequest(r)
  }

  /** Why the encoding of a request is not reviewed: too long, another network, another hash type, no such input,
      or a text too long, in this order; otherwise it is. */
  lemma ReviewRefusals(w: World, suite: Suite, r: Request, material: seq<byte>)
    requires EncodedAs(material, r)
    ensures var v := ReviewTransaction(w, suite, material);
      if |material| > 1_000_000 then v == Refused(ReviewedMaterialTooLong(1_000_000))
      else if r.network != suite.network then
        v == Refused(UnsupportedOperation("Bitcoin Cash request for another network"))
      else if r.spend.hashType != 0x41 then
        v == Refused(UnsupportedOperation("Bitcoin Cash request with unsupported hashtype"))
      else if r.spend.inputIndex >= |r.spend.tx.inputs| then
        v == Refused(UnsupportedOperation("malformed Bitcoin Cash signing request"))
      else if |w.describe(r)| > 4096 then v == Refused(SummaryTooLong(4096))
      else v.Reviewed?
  {
    hide DecodedRequest, EncodedRequest, Encoded, SighashOf, ReviewDigest;
    RequestExact(material, r);
    DecodedWellTyped(material);
    SighashOkIff(w.sha256, r.spend);
    MissingInput(w.sha256, r.spend);
    EncodedNonEmpty(r);
  }

  lemma MissingInput(sha256: Hash, s: Spend)
    ensures s.inputIndex >= |s.tx.inputs| ==>
      SighashOf(sha256, s) == Err(InputIndexOutOfBounds(s.inputIndex, |s.tx.inputs|))
  {
    hide Layout, ManyBytes, OutputBytes;
  }

  ghost predicate ReviewedAs(w: World, suite: Suite, material: seq<byte>, artifact: ReviewArtifact, r: Request) {
    && WellTyped(r) && material == EncodedRequest(r) && WithinLimits(r.spend.tx)
    && |material| <= MAX_REVIEW_MATERIAL_BYTES
    && r.network == suite.network && r.spend.hashType == SIGHASH_ALL && Supported(r.spend)
    && SighashOf(w.sha256, r.spend) == Ok(artifact.signingMessageDigest)
    && |w.describe(r)| <= MAX_REVIEW_SUMMARY_BYTES
    && artifact == ReviewArtifact(
        REVIEW_ARTIFACT_SCHEMA_VERSION, suite.network,
        ReviewDigest(w, suite.network, artifact.signingMessageDigest, w.sha256(material), w.describe(r)),
        artifact.signingMessageDigest, w.describe(r), material)
  }

  lemma SighashOkIff(sha256: Hash, s: Spend)
    requires FromConsensus(s.hashType).Ok?
    ensures SighashOf(sha256, s).Ok? <==> Supported(s)
  {
    hide Layout, ManyBytes, OutputBytes, Prevouts, Sequences;
  }

  lemma EncodedNonEmpty(r: Request)
    requires WellTyped(r)
    ensures EncodedRequest(r) != []
  {
    hide Encoded, LittleEndian, U32Bytes;
  }

  /** Some request is what this artifact reviews. */
  ghost predicate Reviews(w: World, suite: Suite, artifact: ReviewArtifact) {
    exists r: Request :: ReviewedAs(w, suite, artifact.reviewedMaterial, artifact, r)
  }

  /** Reviews are fixpoints: an artifact is produced from exactly one material, its own, and exactly when
      it reviews some request. */
  lemma ReviewFixpoint(w: World, suite: Suite, material: seq<byte>, artifact: ReviewArtifact)
    ensures ReviewTransaction(w, suite, material) == Reviewed(artifact)
       <==> material == artifact.reviewedMaterial && Reviews(w, suite, artifact)
  {
    hide ReviewTransaction, EncodedRequest, SighashOf, ReviewDigest;
    ReviewExact(w, suite, material, artifact);
  }

  /** Final verification accepts exactly the artifacts that review some request for this suite, with a
      signature that is good for the digest of that very request. */
  lemma VerifyExact(w: World, suite: Suite, review: ReviewArtifact, signature: seq<byte>)
    ensures VerifyFinalized(w, suite, review, signature) == Verified
       <==> exists r: Request ::
              && ReviewedAs(w, suite, review.reviewedMaterial, review, r)
              && SignedFor(w, suite, r, signature)
  {
    hide ReviewTransaction, EncodedRequest, SighashOf, ReviewDigest;
    ReviewFixpoint(w, suite, review.reviewedMaterial, review);
  }

  /** And each refusal has its own cause: the schema version, a material that gives no artifact, an artifact for
      another network or other than its material gives, the signature. */
  lemma VerifyRefusals(w: World, suite: Suite, review: ReviewArtifact, signature: seq<byte>)
    ensures var v := VerifyFinalized(w, suite, review, signature);
      var material := review.reviewedMaterial;
      var reproducible := exists b: ReviewArtifact :: b.reviewedMaterial == material && Reviews(w, suite, b);
      && (v == Rejected(UnsupportedSchemaVersion(2, review.schemaVersion)) <==> review.schemaVersion != 2)
      && (v == Rejected(InvalidFinalizedSignature("review artifact cannot be reproduced")) <==>
            review.schemaVersion == 2 && review.network == suite.network && !reproducible)
      && (v == Rejected(InvalidFinalizedSignature("review artifact binding mismatch")) <==>
            && review.schemaVersion == 2 && !Reviews(w, suite, review)
            && (review.network != suite.network || reproducible))
      && (v == Rejected(InvalidFinalizedSignature("signature verification failed")) <==>
            && Reviews(w, suite, review)
            && !w.verifies(suite.algorithm, suite.verificationKey, review.signingMessageDigest, signature))
  {
    hide ReviewTransaction, EncodedRequest, SighashOf, ReviewDigest, Reviews;
    Texts();
    Versions(w, suite, review);
    var made := ReviewTransaction(w, suite, review.reviewedMaterial);
    if made.Reviewed? {
      ReviewFixpoint(w, suite, review.reviewedMaterial, made.artifact);
    }
    ReviewFixpoint(w, suite, review.reviewedMaterial, review);
    forall b: ReviewArtifact | b.reviewedMaterial == review.reviewedMaterial && Reviews(w, suite, b)
      ensures made == Reviewed(b)
    {
      ReviewFixpoint(w, suite, review.reviewedMaterial, b);
    }
  }

  lemma Texts()
    ensures "review artifact cannot be reproduced" != "review artifact binding mismatch"
    ensures "review artifact cannot be reproduced" != "signature verification failed"
    ensures "review artifact binding mismatch" != "signature verification failed"
  {
    assert |"review artifact cannot be reproduced"| == 36 && |"review artifact binding mismatch"| == 32;
    assert |"signature verification failed"| == 29;
  }

  lemma Versions(w: World, suite: Suite, review: ReviewArtifact)
    ensures Reviews(w, suite, review) ==> review.schemaVersion == 2 && review.network == suite.network
  {
    hide EncodedRequest, SighashOf, ReviewDigest;
  }

  /** The signature verifies over the request's own signing digest. */
  ghost predicate SignedFor(w: World, suite: Suite, r: Request, signature: seq<byte>) {
    var digest := SighashOf(w.sha256, r.spend);
    digest.Ok? && w.verifies(suite.algorithm, suite.verificationKey, digest.value, signature)
  }

  function WithoutScripts(inputs: seq<TxIn>): seq<TxIn> {
    seq(|inputs|, i requires 0 <= i < |inputs| => inputs[i].(scriptSig := []))
  }

  /** Equal in everything that is signed under ALL: all but the input scripts. */
  predicate SameButScripts(s: Spend, t: Spend) {
    && WithoutScripts(s.tx.inputs) == WithoutScripts(t.tx.inputs) && s.tx.outputs == t.tx.outputs
    && s.tx.version == t.tx.version && s.tx.lockTime == t.tx.lockTime
    && s.scriptCode == t.scriptCode && s.inputValue == t.inputValue
    && s.inputIndex < |s.tx.inputs| && t.inputIndex < |t.tx.inputs|
    && s.tx.inputs[s.inputIndex].previousOutput == t.tx.inputs[t.inputIndex].previousOutput
  }

  /** A signature cannot be moved to another transaction: two requests whose reviews carry the same
      signing digest agree on everything but the input scripts, provided the hash separates the
      strings the two digests are computed from. */
  lemma SameDigestSameTransaction(w: World, suite: Suite, a: ReviewArtifact, b: ReviewArtifact, r: Request, q: Request)
    ensures
      && ReviewedAs(w, suite, a.reviewedMaterial, a, r) && ReviewedAs(w, suite, b.reviewedMaterial, b, q)
      && a.signingMessageDigest == b.signingMessageDigest
      && Separates(Double(w.sha256), r.spend, q.spend)
      ==> SameButScripts(r.spend, q.spend)
  {
    hide EncodedRequest, Encoded, SighashOf, ReviewDigest, Hashed;
    if ReviewedAs(w, suite, a.reviewedMaterial, a, r) && ReviewedAs(w, suite, b.reviewedMaterial, b, q)
       && a.signingMessageDigest == b.signingMessageDigest
       && Separates(Double(w.sha256), r.spend, q.spend)
    {
      DigestCommits(w.sha256, r.spend, q.spend);
      var x, y := r.spend.tx.inputs, q.spend.tx.inputs;
      assert Prevouts(x) == Prevouts(y) && Sequences(x) == Sequences(y);
      forall i | 0 <= i < |x| ensures x[i].(scriptSig := []) == y[i].(scriptSig := []) {
        assert Prevouts(x)[i] == Prevouts(y)[i] && Sequences(x)[i] == Sequences(y)[i];
      }
    }
  }

  // ---------------------------------------------------------------- what a review digest commits to

  /** Network names carry no length, yet none begins another: they part at the first letter of the name, or
      at its last digit. */
  lemma NameLetters(n: BitcoinCashNetwork)
    ensures 20 <= |NetworkText(n)| <= 21
    ensures NetworkText(n)[13] == match n
      case Mainnet => 'm' case Testnet3 => 't' case Testnet4 => 't' case Scalenet => 's' case Chipnet => 'c'
      case Regtest => 'r'
    ensures n == Testnet3 ==> |NetworkText(n)| == 21 && NetworkText(n)[20] == '3'
    ensures n == Testnet4 ==> |NetworkText(n)| == 21 && NetworkText(n)[20] == '4'
  {}

  lemma NetworkSplit(m: BitcoinCashNetwork, n: BitcoinCashNetwork, s: seq<byte>, t: seq<byte>)
    requires Ascii(NetworkText(m)) + s == Ascii(NetworkText(n)) + t
    ensures m == n && s == t
  {
    NameLetters(m);
    NameLetters(n);
    hide NetworkText;
    var a, b := Ascii(NetworkText(m)), Ascii(NetworkText(n));
    assert a[13] == (a + s)[13] == (b + t)[13] == b[13];
    assert |a| == |b| == 21 ==> a[20] == (a + s)[20] == (b + t)[20] == b[20];
    assert m == n;
    Split(a, s, b, t);
  }

  lemma ReviewBytesExact(m: BitcoinCashNetwork, signing: Digest, request: Digest, summary: Vec<byte>,
                         n: BitcoinCashNetwork, signing': Digest, request': Digest, summary': Vec<byte>)
    ensures ReviewBytes(m, signing, request, summary) == ReviewBytes(n, signing', request', summary') <==>
      m == n && signing == signing' && request == request' && summary == summary'
  {
    hide Ascii, NetworkText, LittleEndian;
    if ReviewBytes(m, signing, request, summary) == ReviewBytes(n, signing', request', summary') {
      var domain := Ascii("catomicals.bitcoin-cash.review.v2\0");
      var a, b := LittleEndian(|summary|, 8) + summary, LittleEndian(|summary'|, 8) + summary';
      Split(domain, Ascii(NetworkText(m)) + (signing + (request + a)),
            domain, Ascii(NetworkText(n)) + (signing' + (request' + b)));
      NetworkSplit(m, n, signing + (request + a), signing' + (request' + b));
      Split(signing, request + a, signing', request' + b);
      Split(request, a, request', b);
      Split(LittleEndian(|summary|, 8), summary, LittleEndian(|summary'|, 8), summary');
    }
  }

  /** A review digest stands for one review: two artifacts with one review digest are the same artifact,
      whatever suites they were made for, provided the hash separates the two materials and the two strings
      that were hashed. */
  lemma SameReviewDigestSameReview(w: World, x: Suite, y: Suite, a: ReviewArtifact, b: ReviewArtifact)
    ensures
      && Reviews(w, x, a) && Reviews(w, y, b) && a.reviewDigest == b.reviewDigest
      && (w.sha256(a.reviewedMaterial) == w.sha256(b.reviewedMaterial) ==> a.reviewedMaterial == b.reviewedMaterial)
      && (w.sha256(ReviewString(w, a)) == w.sha256(ReviewString(w, b)) ==> ReviewString(w, a) == ReviewString(w, b))
      ==> a == b
  {
    hide EncodedRequest, Encoded, SighashOf, ReviewBytes;
    if Reviews(w, x, a) && Reviews(w, y, b) && |a.summary| < 0x1_0000_0000_0000_0000
       && |b.summary| < 0x1_0000_0000_0000_0000 {
      ReviewBytesExact(a.network, a.signingMessageDigest, w.sha256(a.reviewedMaterial), a.summary,
                       b.network, b.signingMessageDigest, w.sha256(b.reviewedMaterial), b.summary);
    }
  }

  /** The string whose hash is an artifact's review digest. */
  function ReviewString(w: World, a: ReviewArtifact): seq<byte> {
    ReviewBytes(a.network, a.signingMessageDigest, w.sha256(a.reviewedMaterial), a.summary)
  }
}
