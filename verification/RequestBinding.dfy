/** The approved signing request: what makes one valid, and the binding digest over it. */
module RequestBinding {
  import opened Bytes
  import opened ClaimLog
  import opened Options
  import opened Suites

  /** Text and material, within the bounds of the review contract. */
  type Field = s: seq<byte> | |s| <= 1_000_000 witness []
  type PublicKey = s: seq<byte> | |s| == 33 witness seq(33, i => 0)
  type i64 = n: int | -0x8000_0000_0000_0000 <= n < 0x8000_0000_0000_0000

  datatype Profile = BitcoinCashEcdsa | BsvEcdsa | KaspaEcdsa

  function SuiteOf(p: Profile): SuiteId {
    match p
    case BitcoinCashEcdsa => BitcoinCashEcdsaCbMpc
    case BsvEcdsa => BsvEcdsaCbMpc
    case KaspaEcdsa => KaspaEcdsaCbMpc
  }

  function ChainName(p: Profile): seq<byte> {
    match p
    case BitcoinCashEcdsa => Ascii("bitcoin-cash")
    case BsvEcdsa => Ascii("bsv")
    case KaspaEcdsa => Ascii("kaspa")
  }

  /** `from_signing_suite_id`. */
  function FromSuite(suite: SuiteId): Option<Profile> {
    match suite
    case BitcoinCashEcdsaCbMpc => Some(BitcoinCashEcdsa)
    case BsvEcdsaCbMpc => Some(BsvEcdsa)
    case KaspaEcdsaCbMpc => Some(KaspaEcdsa)
    case _ => None
  }

  /** `as_str`, the name that is hashed. */
  function ProfileText(p: Profile): string {
    match p
    case BitcoinCashEcdsa => "bch.ecdsa.cb-mpc.v1"
    case BsvEcdsa => "bsv.ecdsa.cb-mpc.v1"
    case KaspaEcdsa => "kaspa.ecdsa.cb-mpc.v1"
  }

  /** The tables of profiles agree: a suite has a profile exactly if it is that profile's suite, and a profile goes
      by the name of its suite. */
  lemma ProfileTables(p: Profile, suite: SuiteId)
    ensures FromSuite(suite) == Some(p) <==> suite == SuiteOf(p)
    ensures SuiteText(SuiteOf(p)) == ProfileText(p)
  {}

  /** Profiles are told apart by the name of their chain. */
  lemma ChainNamesDistinct(p: Profile, q: Profile)
    ensures ChainName(p) == ChainName(q) <==> p == q
  {
    assert |ChainName(BitcoinCashEcdsa)| == 12 && |ChainName(BsvEcdsa)| == 3 && |ChainName(KaspaEcdsa)| == 5;
  }

  datatype Scope = Scope(chain: Field, network: Field)

  datatype Review = Review(
    scope: Scope, schemaVersion: u16, reviewDigest: Digest, signingDigest: Digest, summary: Field, material: Field)

  datatype ReviewBinding = ReviewBinding(
    schemaVersion: u16, scope: Scope, suite: SuiteId, signerSetId: Field, epoch: u64, reviewSchemaVersion: u16,
    reviewDigest: Digest)

  datatype SignerSet = SignerSet(id: Field, epoch: u64, threshold: byte, parties: seq<Field>)

  datatype Parts = Parts(
    namespace: Namespace, profile: Profile, review: Review, binding: ReviewBinding, signers: SignerSet,
    groupKey: PublicKey, policyDigest: Digest, chainDigest: Digest, online: seq<Field>, receiver: Field,
    session: Digest, expiresAt: i64)

  datatype Error =
    Expired | ProfileMismatch | ReviewBindingMismatch | SignerSetMismatch
    | InvalidGroupPublicKey | MissingSecurityBinding
    | InvalidQuorum | NonCanonicalPartyOrder | InvalidReceiver | InvalidSignerSet

  datatype Verdict = Valid | Invalid(error: Error)

  // ---------------------------------------------------------------- signer sets

  /** Byte-wise lexicographic order of party names. */
  predicate Before(a: seq<byte>, b: seq<byte>) {
    b != [] && (a == [] || a[0] < b[0] || (a[0] == b[0] && Before(a[1..], b[1..])))
  }

  lemma {:induction false} BeforeTransitive(a: seq<byte>, b: seq<byte>, c: seq<byte>)
    requires Before(a, b) && Before(b, c)
    ensures Before(a, c)
  {
    if a != [] && a[0] == b[0] == c[0] {
      BeforeTransitive(a[1..], b[1..], c[1..]);
    }
  }

  lemma {:induction false} BeforeIrreflexive(a: seq<byte>)
    ensures !Before(a, a)
  {
    if a != [] {
      BeforeIrreflexive(a[1..]);
    }
  }

  /** The order by position: the first difference decides, and a proper prefix comes first. */
  ghost predicate DiffersAt(a: seq<byte>, b: seq<byte>, i: int) {
    0 <= i < |b| && i <= |a| && a[..i] == b[..i] && (i == |a| || a[i] < b[i])
  }

  lemma {:induction false} BeforeExact(a: seq<byte>, b: seq<byte>)
    ensures Before(a, b) <==> exists i :: DiffersAt(a, b, i)
  {
    if b == [] {
    } else if a == [] || a[0] < b[0] {
      assert DiffersAt(a, b, 0);
    } else if a[0] == b[0] {
      BeforeExact(a[1..], b[1..]);
      if i :| DiffersAt(a[1..], b[1..], i) {
        assert a[..i + 1] == [a[0]] + a[1..][..i] && b[..i + 1] == [b[0]] + b[1..][..i];
        assert DiffersAt(a, b, i + 1);
      }
      if i :| DiffersAt(a, b, i) {
        assert a[1..][..i - 1] == a[..i][1..] && b[1..][..i - 1] == b[..i][1..];
        assert DiffersAt(a[1..], b[1..], i - 1);
      }
    } else {
      forall i ensures !DiffersAt(a, b, i) {
        assert 0 < i <= |a| && i <= |b| ==> a[..i][0] != b[..i][0];
      }
    }
  }

  predicate Admissible(s: SignerSet) {
    && 1 <= |s.id| <= 128 && s.threshold == 2 && |s.parties| == 3
    && Before(s.parties[0], s.parties[1]) && Before(s.parties[1], s.parties[2])
  }

  /** `CbMpcSignerSet::new`. */
  method NewSignerSet(id: Field, epoch: u64, threshold: byte, parties: seq<Field>) returns (v: Verdict, s: SignerSet)
    ensures s == SignerSet(id, epoch, threshold, parties)
    ensures v == Valid <==> Admissible(s)
    ensures v == Invalid(InvalidSignerSet) <==> !(1 <= |id| <= 128 && threshold == 2 && |parties| == 3)
    ensures v in {Valid, Invalid(InvalidSignerSet), Invalid(NonCanonicalPartyOrder)}
  {
    s := SignerSet(id, epoch, threshold, parties);
    if id == [] || |id| > 128 || threshold != 2 || |parties| != 3 {
      return Invalid(InvalidSignerSet), s;
    }
    var i := 0;
    while i + 1 < |parties|
      invariant 0 <= i < |parties|
      invariant forall k :: 0 <= k < i ==> Before(parties[k], parties[k + 1])
    {
      if !Before(parties[i], parties[i + 1]) {
        return Invalid(NonCanonicalPartyOrder), s;
      }
      i := i + 1;
    }
    assert Before(parties[0], parties[0 + 1]) && Before(parties[1], parties[1 + 1]);
    v := Valid;
  }

  /** A signer set names three different parties. */
  lemma PartiesDistinct(s: SignerSet)
    requires Admissible(s)
    ensures forall i, j :: 0 <= i < j < 3 ==> s.parties[i] != s.parties[j]
  {
    BeforeTransitive(s.parties[0], s.parties[1], s.parties[2]);
    BeforeIrreflexive(s.parties[0]);
    BeforeIrreflexive(s.parties[1]);
  }

  // ---------------------------------------------------------------- validation

  /** The place of a party in the set, or its size. */
  function Position(parties: seq<Field>, p: Field): (i: nat)
    ensures i <= |parties| && (i < |parties| <==> p in parties) && (i < |parties| ==> parties[i] == p)
    ensures forall k :: 0 <= k < i ==> parties[k] != p
  {
    if parties == [] then 0 else if parties[0] == p then 0 else 1 + Position(parties[1..], p)
  }

  /** Each of the first `n` online parties is a member, later in the set than the one before. */
  predicate Ordered(parties: seq<Field>, online: seq<Field>, n: nat)
    requires n <= |online|
  {
    forall i :: 0 <= i < n ==>
      online[i] in parties && (i > 0 ==> Position(parties, online[i - 1]) < Position(parties, online[i]))
  }

  predicate FirstFault(parties: seq<Field>, online: seq<Field>, n: nat, missing: bool) {
    && n < |online| && Ordered(parties, online, n) && (missing <==> online[n] !in parties)
    && !Ordered(parties, online, n + 1)
  }

  /** The first online party that is not in its place is missing from the set, or is present. */
  ghost predicate Faulty(parties: seq<Field>, online: seq<Field>, missing: bool) {
    exists n: nat :: FirstFault(parties, online, n, missing)
  }

  /** The online parties are in the order of the set, which makes them different. */
  lemma {:induction false} OrderedIncreasing(parties: seq<Field>, online: seq<Field>, n: nat, i: nat, j: nat)
    requires n <= |online| && Ordered(parties, online, n) && i < j < n
    ensures Position(parties, online[i]) < Position(parties, online[j]) && online[i] != online[j]
  {
    if i < j - 1 {
      OrderedIncreasing(parties, online, n, i, j - 1);
    }
  }

  /** The loop of `validate_request_parts` over the online parties. */
  method CheckOnline(parties: seq<Field>, online: seq<Field>) returns (v: Verdict)
    ensures v == Valid <==> Ordered(parties, online, |online|)
    ensures v == Invalid(InvalidQuorum) <==> Faulty(parties, online, true)
    ensures v == Invalid(NonCanonicalPartyOrder) <==> Faulty(parties, online, false)
    ensures v in {Valid, Invalid(InvalidQuorum), Invalid(NonCanonicalPartyOrder)}
  {
    hide Position, FirstFault;
    var prior: int := -1;
    var unique: set<Field> := {};
    for i := 0 to |online|
      invariant Ordered(parties, online, i)
      invariant prior == if i == 0 then -1 else Position(parties, online[i - 1])
      invariant unique == set k | 0 <= k < i :: online[k]
    {
      var index := Position(parties, online[i]);
      if index == |parties| {
        FaultFound(parties, online, i, true);
        return Invalid(InvalidQuorum);
      }
      if online[i] in unique {
        var k :| 0 <= k < i && online[k] == online[i];
        if k < i - 1 { OrderedIncreasing(parties, online, i, k, i - 1); }
        assert prior >= index;
      }
      if prior >= index || online[i] in unique {
        FaultFound(parties, online, i, false);
        return Invalid(NonCanonicalPartyOrder);
      }
      prior := index;
      unique := unique + {online[i]};
    }
    NoFault(parties, online);
    v := Valid;
  }

  lemma NoFault(parties: seq<Field>, online: seq<Field>)
    requires Ordered(parties, online, |online|)
    ensures !Faulty(parties, online, true) && !Faulty(parties, online, false)
  {}

  lemma FaultFound(parties: seq<Field>, online: seq<Field>, n: nat, missing: bool)
    requires n < |online| && Ordered(parties, online, n) && (missing <==> online[n] !in parties)
    requires online[n] in parties ==> n > 0 && Position(parties, online[n - 1]) >= Position(parties, online[n])
    ensures !Ordered(parties, online, |online|) && Faulty(parties, online, missing)
    ensures !Faulty(parties, online, !missing)
  {
    hide Position;
    FaultIsFirst(parties, online, n, missing);
  }

  lemma FaultIsFirst(parties: seq<Field>, online: seq<Field>, n: nat, missing: bool)
    requires FirstFault(parties, online, n, missing)
    ensures !Ordered(parties, online, |online|)
    ensures Faulty(parties, online, missing) && !Faulty(parties, online, !missing)
  {
    forall m: nat, other | FirstFault(parties, online, m, other) ensures m == n && other == missing {
      OrderedShorter(parties, online, m + 1, n);
      OrderedShorter(parties, online, n + 1, m);
    }
  }

  lemma OrderedShorter(parties: seq<Field>, online: seq<Field>, m: nat, n: nat)
    ensures m <= n <= |online| && Ordered(parties, online, n) ==> Ordered(parties, online, m)
  {}

  predicate ProfileAgrees(p: Parts) {
    && p.review.scope.chain == ChainName(p.profile) && p.binding.scope.chain == ChainName(p.profile)
    && p.binding.suite == SuiteOf(p.profile)
    && p.namespace.suite == SuiteOf(p.profile) && p.namespace.backend == CbMpcThresholdEcdsa
  }

  predicate ReviewAgrees(p: Parts) {
    && p.review.scope == p.binding.scope && p.binding.schemaVersion == 1
    && p.review.schemaVersion == p.binding.reviewSchemaVersion && p.review.reviewDigest == p.binding.reviewDigest
  }

  predicate SignersAgree(p: Parts) {
    p.signers.id == p.binding.signerSetId && p.signers.epoch == p.binding.epoch
  }

  predicate Bound(p: Parts) {
    !IsZero(p.policyDigest) && !IsZero(p.chainDigest) && !IsZero(p.session)
  }

  predicate Quorum(p: Parts) {
    |p.online| == p.signers.threshold && Ordered(p.signers.parties, p.online, |p.online|)
  }

  /** All that `validate_request_parts` demands; `keyOk` is the curve library's parsing of a public key. */
  predicate Approved(keyOk: PublicKey -> bool, p: Parts, now: i64) {
    && p.expiresAt > now && ProfileAgrees(p) && ReviewAgrees(p) && SignersAgree(p)
    && keyOk(p.groupKey) && Bound(p) && Quorum(p) && p.receiver in p.online
  }

  method ValidateRequestParts(keyOk: PublicKey -> bool, p: Parts, now: i64) returns (v: Verdict)
    ensures v == Valid <==> Approved(keyOk, p, now)
    ensures v == Invalid(Expired) <==> p.expiresAt <= now
    ensures v == Invalid(ProfileMismatch) <==> p.expiresAt > now && !ProfileAgrees(p)
    ensures v == Invalid(ReviewBindingMismatch) <==> p.expiresAt > now && ProfileAgrees(p) && !ReviewAgrees(p)
    ensures v == Invalid(SignerSetMismatch) <==>
      p.expiresAt > now && ProfileAgrees(p) && ReviewAgrees(p) && !SignersAgree(p)
    ensures v == Invalid(InvalidGroupPublicKey) <==>
      p.expiresAt > now && ProfileAgrees(p) && ReviewAgrees(p) && SignersAgree(p) && !keyOk(p.groupKey)
    ensures v == Invalid(MissingSecurityBinding) <==>
      p.expiresAt > now && ProfileAgrees(p) && ReviewAgrees(p) && SignersAgree(p) && keyOk(p.groupKey) && !Bound(p)
    ensures v == Invalid(InvalidQuorum) <==>
      && p.expiresAt > now && ProfileAgrees(p) && ReviewAgrees(p) && SignersAgree(p) && keyOk(p.groupKey) && Bound(p)
      && (|p.online| != p.signers.threshold || Faulty(p.signers.parties, p.online, true))
    ensures v == Invalid(NonCanonicalPartyOrder) <==>
      && p.expiresAt > now && ProfileAgrees(p) && ReviewAgrees(p) && SignersAgree(p) && keyOk(p.groupKey) && Bound(p)
      && |p.online| == p.signers.threshold && Faulty(p.signers.parties, p.online, false)
    ensures v == Invalid(InvalidReceiver) <==>
      && p.expiresAt > now && ProfileAgrees(p) && ReviewAgrees(p) && SignersAgree(p) && keyOk(p.groupKey) && Bound(p)
      && Quorum(p) && p.receiver !in p.online
  {
    hide IsZero, Ascii;
    if p.expiresAt <= now {
      return Invalid(Expired);
    }
    if p.review.scope.chain != ChainName(p.profile) || p.binding.scope.chain != ChainName(p.profile)
       || p.binding.suite != SuiteOf(p.profile)
    {
      return Invalid(ProfileMismatch);
    }
    if p.namespace.suite != SuiteOf(p.profile) || p.namespace.backend != CbMpcThresholdEcdsa {
      return Invalid(ProfileMismatch);
    }
    if p.review.scope != p.binding.scope || p.binding.schemaVersion != 1
       || p.review.schemaVersion != p.binding.reviewSchemaVersion || p.review.reviewDigest != p.binding.reviewDigest
    {
      return Invalid(ReviewBindingMismatch);
    }
    if p.signers.id != p.binding.signerSetId || p.signers.epoch != p.binding.epoch {
      return Invalid(SignerSetMismatch);
    }
    if !keyOk(p.groupKey) {
      return Invalid(InvalidGroupPublicKey);
    }
    if IsZero(p.policyDigest) || IsZero(p.chainDigest) || IsZero(p.session) {
      return Invalid(MissingSecurityBinding);
    }
    if |p.online| != p.signers.threshold {
      return Invalid(InvalidQuorum);
    }
    v := CheckOnline(p.signers.parties, p.online);
    if v == Valid && p.receiver !in p.online {
      v := Invalid(InvalidReceiver);
    }
  }

  // ---------------------------------------------------------------- the hashed bytes

  function FieldBytes(f: seq<byte>): seq<byte>
    requires |f| < 0x1_0000_0000
  {
    BigEndian(|f|, 4) + f
  }

  function Fields(fs: seq<Field>): seq<byte> {
    if fs == [] then [] else FieldBytes(fs[0]) + Fields(fs[1..])
  }

  function Unsigned64(v: i64): (r: u64) {
    if v < 0 then v + 0x1_0000_0000_0000_0000 else v
  }

  /** `ReviewBinding::domain_separator`. */
  function Separator(b: ReviewBinding): (r: seq<byte>)
    ensures |r| < 0x1_0000_0000
  {
    Ascii("catomicals.review-binding.v1\0") + (BigEndian(b.schemaVersion, 2)
    + (FieldBytes(b.scope.chain) + (FieldBytes(b.scope.network)
    + (FieldBytes(SuiteName(b.suite)) + (FieldBytes(b.signerSetId) + (BigEndian(b.epoch, 8)
    + (BigEndian(b.reviewSchemaVersion, 2) + b.reviewDigest)))))))
  }

  /** The review part of the preimage, followed by `rest`. */
  function ReviewThen(r: Review, rest: seq<byte>): seq<byte> {
    FieldBytes(r.scope.chain) + (FieldBytes(r.scope.network) + (BigEndian(r.schemaVersion, 2)
    + (r.reviewDigest + (r.signingDigest
    + (FieldBytes(r.summary) + (FieldBytes(r.material) + rest))))))
  }

  function SignersThen(s: SignerSet, rest: seq<byte>): seq<byte> {
    FieldBytes(s.id) + (BigEndian(s.epoch, 8) + ([s.threshold] + (Fields(s.parties) + rest)))
  }

  function Ending(p: Parts): seq<byte> {
    p.groupKey + (p.policyDigest + (p.chainDigest + (Fields(p.online)
    + (FieldBytes(p.receiver) + (p.session + BigEndian(Unsigned64(p.expiresAt), 8))))))
  }

  /** Everything fed to the hasher of `request_binding_digest`, in order. */
  function Preimage(p: Parts): seq<byte> {
    Ascii("catomicals.cb-mpc.approved-sign-request.v1\0") + (NamespaceBytes(p.namespace)
    + (FieldBytes(SuiteName(SuiteOf(p.profile)))
    + ReviewThen(p.review, FieldBytes(Separator(p.binding)) + SignersThen(p.signers, Ending(p)))))
  }

  function BindingDigest(sha256: Hash, p: Parts): Digest {
    sha256(Preimage(p))
  }

  method AppendFields(buffer: seq<byte>, fs: seq<Field>) returns (r: seq<byte>)
    ensures r == buffer + Fields(fs)
  {
    hide FieldBytes;
    r := buffer;
    for i := 0 to |fs|
      invariant r + Fields(fs[i..]) == buffer + Fields(fs)
    {
      assert fs[i..] == [fs[i]] + fs[i + 1..];
      Associative(r, FieldBytes(fs[i]), Fields(fs[i + 1..]));
      r := r + FieldBytes(fs[i]);
    }
    assert fs[|fs|..] == [];
  }

  method AppendReview(buffer: seq<byte>, q: Review) returns (r: seq<byte>)
    ensures r == buffer + ReviewThen(q, [])
  {
    hide FieldBytes, BigEndian;
    r := buffer + FieldBytes(q.scope.chain) + FieldBytes(q.scope.network);
    r := r + BigEndian(q.schemaVersion, 2) + q.reviewDigest + q.signingDigest;
    r := r + FieldBytes(q.summary) + FieldBytes(q.material);
  }

  method AppendSigners(buffer: seq<byte>, s: SignerSet) returns (r: seq<byte>)
    ensures r == buffer + SignersThen(s, [])
  {
    hide FieldBytes, BigEndian, Fields;
    r := buffer + FieldBytes(s.id) + BigEndian(s.epoch, 8) + [s.threshold];
    r := AppendFields(r, s.parties);
  }

  method AppendEnding(buffer: seq<byte>, p: Parts) returns (r: seq<byte>)
    ensures r == buffer + Ending(p)
  {
    hide FieldBytes, BigEndian, Fields;
    r := buffer + p.groupKey + p.policyDigest + p.chainDigest;
    r := AppendFields(r, p.online);
    r := r + FieldBytes(p.receiver) + p.session + BigEndian(Unsigned64(p.expiresAt), 8);
  }

  /** `request_binding_digest`: what the hasher is fed, update by update. */
  method RequestBindingDigest(sha256: Hash, p: Parts) returns (digest: Digest)
    ensures digest == BindingDigest(sha256, p)
  {
    hide FieldBytes, Ascii, SuiteName, NamespaceBytes, ReviewThen, SignersThen, Separator, Ending;
    var hashed := Ascii("catomicals.cb-mpc.approved-sign-request.v1\0") + NamespaceBytes(p.namespace);
    hashed := hashed + FieldBytes(SuiteName(SuiteOf(p.profile)));
    hashed := AppendReview(hashed, p.review);
    hashed := hashed + FieldBytes(Separator(p.binding));
    hashed := AppendSigners(hashed, p.signers);
    hashed := AppendEnding(hashed, p);
    ReviewEnds(p.review, FieldBytes(Separator(p.binding)) + SignersThen(p.signers, Ending(p)));
    SignersEnd(p.signers, Ending(p));
    assert hashed == Preimage(p);
    digest := sha256(hashed);
  }

  lemma ReviewEnds(q: Review, rest: seq<byte>)
    ensures ReviewThen(q, rest) == ReviewThen(q, []) + rest
  {
    hide FieldBytes, BigEndian;
  }

  lemma SignersEnd(s: SignerSet, rest: seq<byte>)
    ensures SignersThen(s, rest) == SignersThen(s, []) + rest
  {
    hide FieldBytes, BigEndian, Fields;
  }

  // ---------------------------------------------------------------- unambiguous

  lemma NumberSplit(v: nat, w: nat, n: nat, s: seq<byte>, t: seq<byte>)
    requires v < Pow256(n) && w < Pow256(n) && BigEndian(v, n) + s == BigEndian(w, n) + t
    ensures v == w && s == t
  {
    hide BigEndian, FromBigEndian, Pow256;
    Split(BigEndian(v, n), s, BigEndian(w, n), t);
    BigEndianReads(v, n);
    BigEndianReads(w, n);
  }

  lemma FieldSplit(f: seq<byte>, g: seq<byte>, s: seq<byte>, t: seq<byte>)
    requires |f| < 0x1_0000_0000 && |g| < 0x1_0000_0000 && FieldBytes(f) + s == FieldBytes(g) + t
    ensures f == g && s == t
  {
    hide BigEndian, Pow256;
    Powers();
    Associative(BigEndian(|f|, 4), f, s);
    Associative(BigEndian(|g|, 4), g, t);
    NumberSplit(|f|, |g|, 4, f + s, g + t);
    Split(f, s, g, t);
  }

  /** Party lists carry no count: equal counts are what makes them readable. */
  lemma {:induction false} FieldsSplit(fs: seq<Field>, gs: seq<Field>, s: seq<byte>, t: seq<byte>)
    requires |fs| == |gs| && Fields(fs) + s == Fields(gs) + t
    ensures fs == gs && s == t
  {
    hide FieldBytes;
    if fs == [] {
      Split([], s, [], t);
    } else {
      Associative(FieldBytes(fs[0]), Fields(fs[1..]), s);
      Associative(FieldBytes(gs[0]), Fields(gs[1..]), t);
      FieldSplit(fs[0], gs[0], Fields(fs[1..]) + s, Fields(gs[1..]) + t);
      FieldsSplit(fs[1..], gs[1..], s, t);
    }
  }

  lemma ReviewSplit(q: Review, r: Review, s: seq<byte>, t: seq<byte>)
    requires ReviewThen(q, s) == ReviewThen(r, t)
    ensures q == r && s == t
  {
    hide FieldBytes, BigEndian;
    Powers();
    var s1, t1 := FieldBytes(q.material) + s, FieldBytes(r.material) + t;
    var s2, t2 := FieldBytes(q.summary) + s1, FieldBytes(r.summary) + t1;
    var s3, t3 := q.reviewDigest + (q.signingDigest + s2), r.reviewDigest + (r.signingDigest + t2);
    var s4, t4 := BigEndian(q.schemaVersion, 2) + s3, BigEndian(r.schemaVersion, 2) + t3;
    var s5, t5 := FieldBytes(q.scope.network) + s4, FieldBytes(r.scope.network) + t4;
    FieldSplit(q.scope.chain, r.scope.chain, s5, t5);
    FieldSplit(q.scope.network, r.scope.network, s4, t4);
    NumberSplit(q.schemaVersion, r.schemaVersion, 2, s3, t3);
    Split(q.reviewDigest, q.signingDigest + s2, r.reviewDigest, r.signingDigest + t2);
    Split(q.signingDigest, s2, r.signingDigest, t2);
    FieldSplit(q.summary, r.summary, s1, t1);
    FieldSplit(q.material, r.material, s, t);
  }

  lemma SeparatorInjective(b: ReviewBinding, c: ReviewBinding)
    requires Separator(b) == Separator(c)
    ensures b == c
  {
    hide FieldBytes, BigEndian, Ascii;
    Powers();
    var s1, t1 := BigEndian(b.reviewSchemaVersion, 2) + b.reviewDigest,
      BigEndian(c.reviewSchemaVersion, 2) + c.reviewDigest;
    var s2, t2 := BigEndian(b.epoch, 8) + s1, BigEndian(c.epoch, 8) + t1;
    var s3, t3 := FieldBytes(b.signerSetId) + s2, FieldBytes(c.signerSetId) + t2;
    var s4, t4 := FieldBytes(SuiteName(b.suite)) + s3, FieldBytes(SuiteName(c.suite)) + t3;
    var s5, t5 := FieldBytes(b.scope.network) + s4, FieldBytes(c.scope.network) + t4;
    var s6, t6 := FieldBytes(b.scope.chain) + s5, FieldBytes(c.scope.chain) + t5;
    var domain := Ascii("catomicals.review-binding.v1\0");
    Split(domain, BigEndian(b.schemaVersion, 2) + s6, domain, BigEndian(c.schemaVersion, 2) + t6);
    NumberSplit(b.schemaVersion, c.schemaVersion, 2, s6, t6);
    FieldSplit(b.scope.chain, c.scope.chain, s5, t5);
    FieldSplit(b.scope.network, c.scope.network, s4, t4);
    FieldSplit(SuiteName(b.suite), SuiteName(c.suite), s3, t3);
    SuiteSplit(b.suite, c.suite, [], []);
    FieldSplit(b.signerSetId, c.signerSetId, s2, t2);
    NumberSplit(b.epoch, c.epoch, 8, s1, t1);
    NumberSplit(b.reviewSchemaVersion, c.reviewSchemaVersion, 2, b.reviewDigest, c.reviewDigest);
  }

  lemma SignersSplit(a: SignerSet, b: SignerSet, s: seq<byte>, t: seq<byte>)
    requires |a.parties| == |b.parties| && SignersThen(a, s) == SignersThen(b, t)
    ensures a == b && s == t
  {
    hide FieldBytes, BigEndian, Fields;
    Powers();
    var s1, t1 := Fields(a.parties) + s, Fields(b.parties) + t;
    FieldSplit(a.id, b.id, BigEndian(a.epoch, 8) + ([a.threshold] + s1), BigEndian(b.epoch, 8) + ([b.threshold] + t1));
    NumberSplit(a.epoch, b.epoch, 8, [a.threshold] + s1, [b.threshold] + t1);
    Split([a.threshold], s1, [b.threshold], t1);
    FieldsSplit(a.parties, b.parties, s, t);
  }

  lemma {:induction false} FieldsOneMore(fs: seq<Field>, f: Field)
    ensures Fields(fs + [f]) == Fields(fs) + FieldBytes(f)
  {
    hide FieldBytes;
    if fs == [] {
      assert fs + [f] == [f] && [f][1..] == [];
    } else {
      FieldsOneMore(fs[1..], f);
      assert (fs + [f])[1..] == fs[1..] + [f];
    }
  }

  /** With nothing after them, fields are read back without a count. */
  lemma {:induction false} FieldsInjective(fs: seq<Field>, gs: seq<Field>)
    requires Fields(fs) == Fields(gs)
    ensures fs == gs
  {
    hide BigEndian;
    if fs != [] && gs != [] {
      FieldSplit(fs[0], gs[0], Fields(fs[1..]), Fields(gs[1..]));
      FieldsInjective(fs[1..], gs[1..]);
    }
  }

  /** The online parties and the receiver are one list of fields, cut off by what has a fixed length. */
  lemma OnlineSplit(p: Parts, q: Parts, s: seq<byte>, t: seq<byte>)
    requires |s| == |t|
    requires Fields(p.online) + (FieldBytes(p.receiver) + s) == Fields(q.online) + (FieldBytes(q.receiver) + t)
    ensures p.online == q.online && p.receiver == q.receiver && s == t
  {
    hide FieldBytes, Fields;
    FieldsOneMore(p.online, p.receiver);
    FieldsOneMore(q.online, q.receiver);
    Associative(Fields(p.online), FieldBytes(p.receiver), s);
    Associative(Fields(q.online), FieldBytes(q.receiver), t);
    Split(Fields(p.online + [p.receiver]), s, Fields(q.online + [q.receiver]), t);
    FieldsInjective(p.online + [p.receiver], q.online + [q.receiver]);
    Unsnoc(p.online, p.receiver, q.online, q.receiver);
  }

  lemma Unsnoc<T>(a: seq<T>, x: T, b: seq<T>, y: T)
    requires a + [x] == b + [y]
    ensures a == b && x == y
  {
    assert |a + [x]| == |b + [y]|;
    Split(a, [x], b, [y]);
  }

  lemma EndingInjective(p: Parts, q: Parts)
    requires Ending(p) == Ending(q)
    ensures p.groupKey == q.groupKey && p.policyDigest == q.policyDigest && p.chainDigest == q.chainDigest
    ensures p.online == q.online
    ensures p.receiver == q.receiver && p.session == q.session && p.expiresAt == q.expiresAt
  {
    hide FieldBytes, BigEndian, Fields;
    Powers();
    var s1, t1 := p.session + BigEndian(Unsigned64(p.expiresAt), 8), q.session + BigEndian(Unsigned64(q.expiresAt), 8);
    var s3, t3 := Fields(p.online) + (FieldBytes(p.receiver) + s1), Fields(q.online) + (FieldBytes(q.receiver) + t1);
    Split(p.groupKey, p.policyDigest + (p.chainDigest + s3), q.groupKey, q.policyDigest + (q.chainDigest + t3));
    Split(p.policyDigest, p.chainDigest + s3, q.policyDigest, q.chainDigest + t3);
    Split(p.chainDigest, s3, q.chainDigest, t3);
    OnlineSplit(p, q, s1, t1);
    Split(p.session, BigEndian(Unsigned64(p.expiresAt), 8), q.session, BigEndian(Unsigned64(q.expiresAt), 8));
    NumberSplit(Unsigned64(p.expiresAt), Unsigned64(q.expiresAt), 8, [], []);
  }

  /** What the constructors of a request's parts guarantee, approved or not. */
  predicate Buildable(p: Parts) {
    Constructible(p.namespace) && Admissible(p.signers)
  }

  /** The binding is unambiguous: two requests that can be built have equal hashed bytes only if they are the
      same, though neither the names in the namespace nor the party lists are framed. */
  lemma PreimageInjective(p: Parts, q: Parts)
    requires Buildable(p) && Buildable(q)
    ensures Preimage(p) == Preimage(q) <==> p == q
  {
    hide Preimage, Buildable;
    if Preimage(p) == Preimage(q) {
      PreimageDetermines(p, q);
    }
  }

  lemma PreimageDetermines(p: Parts, q: Parts)
    requires Buildable(p) && Buildable(q) && Preimage(p) == Preimage(q)
    ensures p == q
  {
    hide FieldBytes, Ascii, SuiteName, NamespaceBytes, ReviewThen, SignersThen, Separator, Ending, Constructible;
    hide Before, SuiteOf;
    var domain := Ascii("catomicals.cb-mpc.approved-sign-request.v1\0");
    var s1, t1 := SignersThen(p.signers, Ending(p)), SignersThen(q.signers, Ending(q));
    var s2, t2 := FieldBytes(Separator(p.binding)) + s1, FieldBytes(Separator(q.binding)) + t1;
    var u, v := SuiteName(SuiteOf(p.profile)), SuiteName(SuiteOf(q.profile));
    var s3, t3 := FieldBytes(u) + ReviewThen(p.review, s2), FieldBytes(v) + ReviewThen(q.review, t2);
    Split(domain, NamespaceBytes(p.namespace) + s3, domain, NamespaceBytes(q.namespace) + t3);
    NamespaceSplit(p.namespace, q.namespace, s3, t3);
    FieldSplit(u, v, ReviewThen(p.review, s2), ReviewThen(q.review, t2));
    ProfileNamed(p.profile, q.profile);
    ReviewSplit(p.review, q.review, s2, t2);
    FieldSplit(Separator(p.binding), Separator(q.binding), s1, t1);
    SeparatorInjective(p.binding, q.binding);
    SignersSplit(p.signers, q.signers, Ending(p), Ending(q));
    EndingInjective(p, q);
  }

  lemma ProfileNamed(p: Profile, q: Profile)
    requires SuiteName(SuiteOf(p)) == SuiteName(SuiteOf(q))
    ensures p == q
  {
    hide SuiteName;
    SuiteSplit(SuiteOf(p), SuiteOf(q), [], []);
  }

  /** So the digest identifies the request, for a hash that separates the two preimages. */
  lemma DigestIdentifiesRequest(sha256: Hash, p: Parts, q: Parts)
    requires Buildable(p) && Buildable(q)
    ensures (sha256(Preimage(p)) == sha256(Preimage(q)) ==> Preimage(p) == Preimage(q)) ==>
      (BindingDigest(sha256, p) == BindingDigest(sha256, q) <==> p == q)
  {
    hide Preimage, Buildable;
    PreimageInjective(p, q);
  }
}
