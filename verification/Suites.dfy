/** Signing suites and signer backends, with the names under which they are hashed. */
module Suites {
  import opened Bytes

  datatype SuiteId =
    | BitcoinBip340Frost
    | BitcoinBip340Isolated
    | FractalBitcoinBip340Frost
    | BitcoinCashSchnorrIsolated
    | BitcoinCashEcdsaIsolated
    | BitcoinCashEcdsaCbMpc
    | BsvEcdsaIsolated
    | BsvEcdsaCbMpc
    | KaspaSchnorrFrost
    | KaspaEcdsaIsolated
    | KaspaEcdsaCbMpc
    | ChiaBls12381AugNative
    | ChiaBls12381AugThreshold2of3
    | ErgoSigmaNative
    | ErgoSigmaP2pkIsolated
    | ErgoSigmaP2pkThreshold2of3

  datatype Backend =
    | FrostSecp256k1Tr
    | FrostSecp256k1Kaspa
    | CbMpcThresholdEcdsa
    | IsolatedBip340
    | IsolatedSecp256k1Ecdsa
    | IsolatedBitcoinCashSchnorr
    | ChiaBlsAug
    | ChiaBlsAugThreshold2of3
    | ErgoSigma
    | ErgoSigmaP2pk
    | ErgoSigmaP2pkThreshold

  function SuiteText(id: SuiteId): (r: string)
    ensures 19 <= |r| <= 44
  {
    match id
    case BitcoinBip340Frost => "btc.bip340.frost-secp256k1-tr.v1"
    case BitcoinBip340Isolated => "btc.bip340.isolated.v1"
    case FractalBitcoinBip340Frost => "fractal-bitcoin.bip340.frost-secp256k1-tr.v1"
    case BitcoinCashSchnorrIsolated => "bch.schnorr.isolated.v1"
    case BitcoinCashEcdsaIsolated => "bch.ecdsa.isolated.v1"
    case BitcoinCashEcdsaCbMpc => "bch.ecdsa.cb-mpc.v1"
    case BsvEcdsaIsolated => "bsv.ecdsa.isolated.v1"
    case BsvEcdsaCbMpc => "bsv.ecdsa.cb-mpc.v1"
    case KaspaSchnorrFrost => "kaspa.schnorr.frost-secp256k1.v1"
    case KaspaEcdsaIsolated => "kaspa.ecdsa.isolated.v1"
    case KaspaEcdsaCbMpc => "kaspa.ecdsa.cb-mpc.v1"
    case ChiaBls12381AugNative => "chia.bls12-381.aug.native.v1"
    case ChiaBls12381AugThreshold2of3 => "chia.bls12-381.aug.threshold-2of3.v1"
    case ErgoSigmaNative => "ergo.sigma.native.v1"
    case ErgoSigmaP2pkIsolated => "ergo.sigma.p2pk.isolated.v1"
    case ErgoSigmaP2pkThreshold2of3 => "ergo.sigma.p2pk.threshold-2of3.v1"
  }

  function SuiteName(id: SuiteId): (r: seq<byte>)
    ensures 19 <= |r| <= 44
  {
    Ascii(SuiteText(id))
  }

  function BackendText(b: Backend): string {
    match b
    case FrostSecp256k1Tr => "frost-secp256k1-tr"
    case FrostSecp256k1Kaspa => "frost-secp256k1-kaspa"
    case CbMpcThresholdEcdsa => "cb-mpc-threshold-ecdsa"
    case IsolatedBip340 => "isolated-bip340"
    case IsolatedSecp256k1Ecdsa => "isolated-secp256k1-ecdsa"
    case IsolatedBitcoinCashSchnorr => "isolated-bitcoin-cash-schnorr"
    case ChiaBlsAug => "chia-bls-aug"
    case ChiaBlsAugThreshold2of3 => "chia-bls-aug-threshold-2of3"
    case ErgoSigma => "ergo-sigma"
    case ErgoSigmaP2pk => "ergo-sigma-p2pk"
    case ErgoSigmaP2pkThreshold => "ergo-sigma-p2pk-threshold-2of3"
  }

  function BackendName(b: Backend): seq<byte> {
    Ascii(BackendText(b))
  }

  /** The seventeenth and eighteenth letters of a name. */
  function Letters(id: SuiteId): (r: (char, char))
    ensures r.0 < 128 as char && r.1 < 128 as char
  {
    match id
    case BitcoinBip340Frost => ('-', 's')
    case BitcoinBip340Isolated => ('t', 'e')
    case FractalBitcoinBip340Frost => ('b', 'i')
    case BitcoinCashSchnorrIsolated => ('a', 't')
    case BitcoinCashEcdsaIsolated => ('e', 'd')
    case BitcoinCashEcdsaCbMpc => ('.', 'v')
    case BsvEcdsaIsolated => ('e', 'd')
    case BsvEcdsaCbMpc => ('.', 'v')
    case KaspaSchnorrFrost => ('o', 's')
    case KaspaEcdsaIsolated => ('a', 't')
    case KaspaEcdsaCbMpc => ('p', 'c')
    case ChiaBls12381AugNative => ('u', 'g')
    case ChiaBls12381AugThreshold2of3 => ('u', 'g')
    case ErgoSigmaNative => ('e', '.')
    case ErgoSigmaP2pkIsolated => ('i', 's')
    case ErgoSigmaP2pkThreshold2of3 => ('t', 'h')
  }

  lemma SeventeenthLetter(id: SuiteId)
    ensures SuiteText(id)[16] == Letters(id).0
  {}

  lemma EighteenthLetter(id: SuiteId)
    ensures SuiteText(id)[17] == Letters(id).1
  {}

  /** Where the names differ that share those two letters; 16 where none does. */
  function Index(id: SuiteId): nat {
    match id
    case BitcoinCashSchnorrIsolated => 10
    case KaspaEcdsaIsolated => 10
    case BitcoinCashEcdsaIsolated => 2
    case BsvEcdsaIsolated => 2
    case BitcoinCashEcdsaCbMpc => 2
    case BsvEcdsaCbMpc => 2
    case ChiaBls12381AugNative => 19
    case ChiaBls12381AugThreshold2of3 => 19
    case _ => 16
  }

  function Letter(id: SuiteId): (c: char)
    ensures c < 128 as char
  {
    match id
    case BitcoinCashSchnorrIsolated => 'r'
    case KaspaEcdsaIsolated => 'a'
    case BitcoinCashEcdsaIsolated => 'h'
    case BsvEcdsaIsolated => 'v'
    case BitcoinCashEcdsaCbMpc => 'h'
    case BsvEcdsaCbMpc => 'v'
    case ChiaBls12381AugNative => 'n'
    case ChiaBls12381AugThreshold2of3 => 't'
    case _ => Letters(id).0
  }

  lemma LetterThere(id: SuiteId)
    requires Index(id) != 16
    ensures Index(id) < |SuiteText(id)| && SuiteText(id)[Index(id)] == Letter(id)
  {}

  lemma LettersDecide(p: SuiteId, q: SuiteId)
    requires Letters(p) == Letters(q)
    ensures p == q || (Index(p) == Index(q) != 16 && Letter(p) != Letter(q))
  {}

  lemma SameByte(p: seq<byte>, q: seq<byte>, s: seq<byte>, t: seq<byte>, i: nat)
    requires p + s == q + t && i < |p| && i < |q|
    ensures p[i] == q[i]
  {
    assert (p + s)[i] == p[i] && (q + t)[i] == q[i];
  }

  /** No suite name starts another: written without a length, each is still readable. */
  lemma SuiteSplit(p: SuiteId, q: SuiteId, s: seq<byte>, t: seq<byte>)
    requires SuiteName(p) + s == SuiteName(q) + t
    ensures p == q && s == t
  {
    hide SuiteText, Letters, Letter, Index;
    SeventeenthLetter(p);
    SeventeenthLetter(q);
    EighteenthLetter(p);
    EighteenthLetter(q);
    SameByte(SuiteName(p), SuiteName(q), s, t, 16);
    SameByte(SuiteName(p), SuiteName(q), s, t, 17);
    LettersDecide(p, q);
    if Index(p) == Index(q) != 16 {
      LetterThere(p);
      LetterThere(q);
      SameByte(SuiteName(p), SuiteName(q), s, t, Index(p));
    }
    Split(SuiteName(p), s, SuiteName(q), t);
  }
}
