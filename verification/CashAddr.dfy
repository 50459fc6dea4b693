/** CashAddr printing and parsing ("Address Format" section of the CashAddr specification). */
module CashAddr {
  import Bytes
  import opened Checksum
  import opened Networks
  import opened Regroup

  datatype AddressNetwork = MainnetAddress | TestFamily | RegtestAddress | LegacyNonMainnet

  datatype AddressKind = P2pkh | P2sh

  type Hash160 = h: seq<Bytes.byte> | |h| == 20 witness seq(20, i => 0)

  datatype Address = Address(network: AddressNetwork, kind: AddressKind, hash: Hash160)

  datatype Error =
    | AmbiguousAddressNetwork
    | MixedCaseAddress
    | InvalidAddressEncoding
    | WrongNetwork(expected: BitcoinCashNetwork, actual: string)
    | InvalidChecksum
    | BadPayload

  datatype Outcome<T> = Accept(value: T) | Reject(error: Error)

  const CHARSET: string := "qpzry9x8gf2tvdw0s3jn54khce6mua7l"

  // ---------------------------------------------------------------- tables

  function NetworkOf(network: BitcoinCashNetwork): AddressNetwork {
    match network
    case Mainnet => MainnetAddress
    case Regtest => RegtestAddress
    case _ => TestFamily
  }

  /** `cashaddr_prefix`; the empty text stands for the missing prefix of the legacy family. */
  function Prefix(network: AddressNetwork): string {
    match network
    case MainnetAddress => "bitcoincash"
    case TestFamily => "bchtest"
    case RegtestAddress => "bchreg"
    case LegacyNonMainnet => ""
  }

  function NetworkName(network: AddressNetwork): string {
    match network
    case MainnetAddress => "mainnet"
    case TestFamily => "test-family"
    case RegtestAddress => "regtest"
    case LegacyNonMainnet => "legacy non-mainnet family"
  }

  function RequireNetwork(expected: BitcoinCashNetwork, prefix: string): Outcome<AddressNetwork> {
    if prefix == "bitcoincash" then MatchNetwork(expected, MainnetAddress)
    else if prefix == "bchtest" then MatchNetwork(expected, TestFamily)
    else if prefix == "bchreg" then MatchNetwork(expected, RegtestAddress)
    else Reject(WrongNetwork(expected, "unknown"))
  }

  function MatchNetwork(expected: BitcoinCashNetwork, actual: AddressNetwork): Outcome<AddressNetwork> {
    if actual == NetworkOf(expected) then Accept(actual)
    else Reject(WrongNetwork(expected, NetworkName(actual)))
  }

  function Version(kind: AddressKind): Bytes.byte {
    match kind case P2pkh => 0 case P2sh => 8
  }

  // ---------------------------------------------------------------- text

  predicate IsLower(c: char) { 'a' <= c <= 'z' }

  predicate IsUpper(c: char) { 'A' <= c <= 'Z' }

  predicate MixedCase(text: string) {
    (exists c :: c in text && IsLower(c)) && (exists c :: c in text && IsUpper(c))
  }

  predicate Ascii(text: string) {
    forall c :: c in text ==> c < 128 as char
  }

  function LowerChar(c: char): char {
    if IsUpper(c) then (c as int + 32) as char else c
  }

  function Lower(text: string): (r: string)
    ensures |r| == |text| && forall i :: 0 <= i < |r| ==> r[i] == LowerChar(text[i])
  {
    seq(|text|, i requires 0 <= i < |text| => LowerChar(text[i]))
  }

  /** The position of the first occurrence of `c`, or the length if there is none. */
  function IndexOf(text: string, c: char): (i: nat)
    ensures i <= |text| && c !in text[..i] && (i < |text| ==> text[i] == c)
  {
    if text == [] || text[0] == c then 0
    else
      var i := 1 + IndexOf(text[1..], c);
      assert text[..i] == [text[0]] + text[1..][..i - 1];
      i
  }

  predicate Symbols(values: seq<nat>) {
    forall i :: 0 <= i < |values| ==> values[i] < 32
  }

  function Spell(values: seq<nat>): (r: string)
    requires Symbols(values)
  {
    seq(|values|, i requires 0 <= i < |values| => CHARSET[values[i]])
  }

  predicate Spellable(text: string) {
    forall i :: 0 <= i < |text| ==> text[i] in CHARSET
  }

  function Read(text: string): (r: seq<nat>)
    requires Spellable(text)
    ensures |r| == |text| && Symbols(r)
  {
    seq(|text|, i requires 0 <= i < |text| => IndexOf(CHARSET, text[i]))
  }

  // ---------------------------------------------------------------- checksum input

  function AsVectors(values: seq<nat>): (r: seq<bv8>)
    requires Symbols(values)
    ensures |r| == |values|
  {
    seq(|values|, i requires 0 <= i < |values| => values[i] as bv8)
  }

  function AsValues(vectors: seq<bv8>): (r: seq<nat>)
    requires FiveBit(vectors)
    ensures |r| == |vectors| && Symbols(r)
  {
    seq(|vectors|, i requires 0 <= i < |vectors| => SmallVector(vectors[i]); vectors[i] as int)
  }

  lemma SmallVector(v: bv8)
    requires v < 32
    ensures v as int < 32
  {}

  function ExpandPrefix(prefix: string): (r: seq<bv8>)
    requires Ascii(prefix)
  {
    seq(|prefix|, i requires 0 <= i < |prefix| =>
      assert prefix[i] in prefix; (prefix[i] as int % 32) as bv8) + [0]
  }

  /** The whole symbol text of a payload body: the body and its checksum. */
  function WithChecksum(prefix: string, body: seq<nat>): (r: seq<nat>)
    requires Ascii(prefix) && Symbols(body)
    ensures |r| == |body| + 8 && r[..|body|] == body && Symbols(r)
  {
    body + AsValues(ChecksumSymbols(Polymod(ExpandPrefix(prefix) + AsVectors(body) + EIGHT_ZEROS)))
  }

  lemma PrefixAscii(network: AddressNetwork)
    ensures Ascii(Prefix(network)) && ':' !in Prefix(network)
  {}

  // ---------------------------------------------------------------- printing

  ghost function Body(a: Address): (r: seq<nat>)
    ensures Regrouping([Version(a.kind)] + a.hash, 8, 5, true) == Result.Ok(r) && Symbols(r)
  {
    PaddedSymbols([Version(a.kind)] + a.hash);
    Regrouping([Version(a.kind)] + a.hash, 8, 5, true).value
  }

  lemma PaddedSymbols(bytes: seq<nat>)
    requires forall i :: 0 <= i < |bytes| ==> bytes[i] < 256
    ensures Regrouping(bytes, 8, 5, true).Ok? && Symbols(Regrouping(bytes, 8, 5, true).value)
  {
    hide Regrouping;
    Powers();
    PaddedWithin(bytes, 8, 5);
  }

  lemma Powers()
    ensures Pow2(5) == 32 && Pow2(8) == 256
  {
    assert Pow2(3) == 8;
    assert Pow2(6) == 64;
  }

  ghost function Printed(a: Address): (r: Outcome<string>) {
    if a.network == LegacyNonMainnet then Reject(AmbiguousAddressNetwork)
    else
      var prefix := Prefix(a.network);
      PrefixAscii(a.network);
      Accept(prefix + ":" + Spell(WithChecksum(prefix, Body(a))))
  }

  method ToCashaddr(a: Address) returns (r: Outcome<string>)
    ensures r == Printed(a)
    ensures r.Accept? ==> Checked(Prefix(a.network), r.value)
  {
    PrintedChecked(a);
    hide Regrouping, Polymod, ChecksumSymbols, Checked;
    var prefix := Prefix(a.network);
    if a.network == LegacyNonMainnet {
      return Reject(AmbiguousAddressNetwork);
    }
    PrefixAscii(a.network);
    PaddedSymbols([Version(a.kind)] + a.hash);
    var converted := ConvertBits([Version(a.kind)] + a.hash, 8, 5, true);
    var payload := converted.value;
    var input := ExpandPrefix(prefix);
    input := input + AsVectors(payload);
    input := input + EIGHT_ZEROS;
    var checksum := ComputePolymod(input);
    payload := payload + AsValues(ChecksumSymbols(checksum));
    return Accept(prefix + ":" + Spell(payload));
  }

  // ---------------------------------------------------------------- parsing

  /** The prefix and payload of a lower-cased text: split at its only colon, or the prefix of the
      expected network when there is none. */
  function SplitText(expected: BitcoinCashNetwork, text: string): Outcome<(string, string)> {
    var i := IndexOf(text, ':');
    if i == |text| then Accept((Prefix(NetworkOf(expected)), text))
    else if ':' in text[i + 1..] then Reject(InvalidAddressEncoding)
    else Accept((text[..i], text[i + 1..]))
  }

  ghost function Parsed(expected: BitcoinCashNetwork, text: string): (r: Outcome<Address>) {
    if MixedCase(text) then Reject(MixedCaseAddress)
    else if !Ascii(text) then Reject(InvalidAddressEncoding)
    else
      var split := SplitText(expected, Lower(text));
      if split.Reject? then Reject(split.error)
      else ParsedParts(expected, split.value.0, split.value.1)
  }

  ghost function ParsedParts(expected: BitcoinCashNetwork, prefix: string, payload: string): (r: Outcome<Address>) {
    if prefix == "" || |payload| < 8 then Reject(InvalidAddressEncoding)
    else
      var network := RequireNetwork(expected, prefix);
      if network.Reject? then Reject(network.error)
      else if !Spellable(payload) then Reject(InvalidAddressEncoding)
      else
        PrefixAscii(network.value);
        if Polymod(ExpandPrefix(prefix) + AsVectors(Read(payload))) != 0 then Reject(InvalidChecksum)
        else ParsedData(network.value, Regrouping(Read(payload)[..|payload| - 8], 5, 8, false))
  }

  function ParsedData(network: AddressNetwork, data: Result<seq<nat>>): (r: Outcome<Address>)
    requires data.Ok? ==> Within(data.value, 8)
  {
    Powers();
    if data.InvalidAddressPayload? || |data.value| != 21 then Reject(BadPayload)
    else if data.value[0] == 0 then Accept(Address(network, P2pkh, data.value[1..]))
    else if data.value[0] == 8 then Accept(Address(network, P2sh, data.value[1..]))
    else Reject(BadPayload)
  }

  method ParseCashaddr(expected: BitcoinCashNetwork, encoded: string) returns (r: Outcome<Address>)
    ensures r == Parsed(expected, encoded)
    ensures r.Accept? ==>
      Checked(PrefixFor(expected),
              if ':' in encoded then Lower(encoded) else PrefixFor(expected) + ":" + Lower(encoded))
    ensures r == Reject(MixedCaseAddress) <==>
      (exists c <- encoded :: 'a' <= c <= 'z') && (exists c <- encoded :: 'A' <= c <= 'Z')
  {
    ParsedChecked(expected, encoded);
    MixedExactly(expected, encoded);
    hide Regrouping, Polymod, Checked, Lower, SplitText, Read, ParsedData, AsVectors, ExpandPrefix, MixedCase;
    if MixedCase(encoded) {
      return Reject(MixedCaseAddress);
    }
    if !Ascii(encoded) {
      return Reject(InvalidAddressEncoding);
    }
    var split := SplitText(expected, Lower(encoded));
    if split.Reject? {
      return Reject(split.error);
    }
    var (prefix, payloadText) := split.value;
    if prefix == "" || |payloadText| < 8 {
      return Reject(InvalidAddressEncoding);
    }
    var network := RequireNetwork(expected, prefix);
    if network.Reject? {
      return Reject(network.error);
    }
    if !Spellable(payloadText) {
      return Reject(InvalidAddressEncoding);
    }
    PrefixAscii(network.value);
    var payload := Read(payloadText);
    var checksum := ComputePolymod(ExpandPrefix(prefix) + AsVectors(payload));
    if checksum != 0 {
      return Reject(InvalidChecksum);
    }
    var data := ConvertBits(payload[..|payload| - 8], 5, 8, false);
    return ParsedData(network.value, data);
  }

  // ---------------------------------------------------------------- the bijection

  lemma {:induction false} CharsetDistinct(i: nat)
    requires i < 32
    ensures IndexOf(CHARSET, CHARSET[i]) == i
  {
    var j := IndexOf(CHARSET, CHARSET[i]);
    CharsetPairs();
  }

  lemma CharsetPairs()
    ensures |CHARSET| == 32
    ensures forall i, j :: 0 <= i < j < 32 ==> CHARSET[i] != CHARSET[j]
  {}

  lemma ReadSpell(values: seq<nat>)
    requires Symbols(values)
    ensures Spellable(Spell(values)) && Read(Spell(values)) == values
    ensures ':' !in Spell(values) && Lower(Spell(values)) == Spell(values)
  {
    hide IndexOf;
    forall i | 0 <= i < |values| ensures Read(Spell(values))[i] == values[i] { CharsetDistinct(values[i]); }
    CharsetLower();
    forall i | 0 <= i < |values| ensures LowerChar(Spell(values)[i]) == Spell(values)[i] != ':' {}
  }

  lemma CharsetLower()
    ensures forall i :: 0 <= i < 32 ==> !IsUpper(CHARSET[i]) && CHARSET[i] != ':'
  {}

  lemma SpellRead(text: string)
    requires Spellable(text)
    ensures Spell(Read(text)) == text
  {
    forall i | 0 <= i < |text| ensures Spell(Read(text))[i] == text[i] {
      var j := IndexOf(CHARSET, text[i]);
      assert CHARSET[..|CHARSET|] == CHARSET;
    }
  }

  lemma VectorRoundTrip(values: seq<nat>, vectors: seq<bv8>)
    requires Symbols(values) && FiveBit(vectors)
    ensures AsVectors(AsValues(vectors)) == vectors && AsValues(AsVectors(values)) == values
    ensures FiveBit(AsVectors(values))
  {
    forall i | 0 <= i < |vectors| ensures AsVectors(AsValues(vectors))[i] == vectors[i] { OneVector(vectors[i]); }
    forall i | 0 <= i < |values| ensures AsVectors(values)[i] < 32 { OneValue(values[i]); }
    forall i | 0 <= i < |values| ensures AsValues(AsVectors(values))[i] == values[i] { OneValue(values[i]); }
  }

  lemma OneVector(v: bv8)
    ensures (v as int) as bv8 == v
  {}

  lemma OneValue(n: nat)
    requires n < 32
    ensures (n as bv8) as int == n && (n as bv8) < 32
  {}

  /** A symbol text passes the checksum test if and only if it is some body with its checksum. */
  lemma ChecksumExact(prefix: string, values: seq<nat>)
    requires Ascii(prefix) && Symbols(values) && |values| >= 8
    ensures Polymod(ExpandPrefix(prefix) + AsVectors(values)) == 0
       <==> values == WithChecksum(prefix, values[..|values| - 8])
  {
    hide Polymod, ChecksumSymbols, ExpandPrefix;
    var n := |values| - 8;
    var body, tail := values[..n], values[n..];
    var text := ExpandPrefix(prefix) + AsVectors(body);
    VectorRoundTrip(tail, ChecksumSymbols(Polymod(text + EIGHT_ZEROS)));
    assert AsVectors(values) == AsVectors(body) + AsVectors(tail);
    assert ExpandPrefix(prefix) + AsVectors(values) == text + AsVectors(tail);
    ChecksumUnique(text, AsVectors(tail));
    assert values == body + tail;
  }

  /** A body decodes to an address if and only if it is the body that address prints. */
  lemma BodyExact(network: AddressNetwork, body: seq<nat>, a: Address)
    ensures ParsedData(network, Regrouping(body, 5, 8, false)) == Accept(a)
       <==> a.network == network && body == Body(a)
  {
    hide Regrouping;
    var bytes: seq<nat> := [Version(a.kind)] + a.hash;
    RegroupingInverse(body, bytes, 5, 8);
    var data := Regrouping(body, 5, 8, false);
    if data.Ok? && |data.value| == 21 {
      assert data.value == [data.value[0]] + data.value[1..];
    }
    assert bytes[1..] == a.hash;
  }

  lemma PartsExact(expected: BitcoinCashNetwork, prefix: string, payload: string, a: Address)
    ensures ParsedParts(expected, prefix, payload) == Accept(a)
       <==> && a.network == NetworkOf(expected)
            && Printed(a) == Accept(prefix + ":" + payload)
            && prefix == Prefix(a.network)
  {
    hide Regrouping, Polymod, Spell, Read, ExpandPrefix, AsVectors, WithChecksum, Body, ParsedData;
    PrefixAscii(a.network);
    var printed := Spell(WithChecksum(Prefix(a.network), Body(a)));
    assert prefix == Prefix(a.network) ==>
      (prefix + ":" + printed == prefix + ":" + payload <==> printed == payload) by {
      Cancel(prefix + ":", printed, payload);
    }
    ReadSpell(WithChecksum(Prefix(a.network), Body(a)));
    if Spellable(payload) && |payload| >= 8 && prefix == Prefix(NetworkOf(expected)) {
      PrefixAscii(NetworkOf(expected));
      var values := Read(payload);
      SpellRead(payload);
      ChecksumExact(prefix, values);
      BodyExact(NetworkOf(expected), values[..|values| - 8], a);
    }
  }

  lemma Cancel(a: string, b: string, c: string)
    ensures a + b == a + c <==> b == c
  {
    if a + b == a + c { assert b == (a + b)[|a|..] == c; }
  }

  /** Lower-cased and with its prefix restored. */
  function Normal(expected: BitcoinCashNetwork, text: string): string {
    if ':' in Lower(text) then Lower(text) else Prefix(NetworkOf(expected)) + ":" + Lower(text)
  }

  lemma SplitExact(expected: BitcoinCashNetwork, text: string, prefix: string, payload: string)
    requires ':' !in prefix && ':' !in payload
    ensures SplitText(expected, Lower(text)) == Accept((prefix, payload)) ==>
      Normal(expected, text) == prefix + ":" + payload
    ensures Normal(expected, text) == prefix + ":" + payload && prefix == Prefix(NetworkOf(expected))
        ==> SplitText(expected, Lower(text)) == Accept((prefix, payload))
  {
    var low := Lower(text);
    var i := IndexOf(low, ':');
    assert low[..|low|] == low;
    if i < |low| {
      assert low == low[..i] + ":" + low[i + 1..];
      if low == prefix + ":" + payload {
        assert low[|prefix|] == ':';
        ColonAt(low, prefix, payload, i);
      }
    } else {
      Cancel(prefix + ":", low, payload);
    }
  }

  lemma ColonAt(text: string, prefix: string, payload: string, i: nat)
    requires text == prefix + ":" + payload && ':' !in prefix && ':' !in payload
    requires i < |text| && text[i] == ':' && ':' !in text[..i]
    ensures text[..i] == prefix && text[i + 1..] == payload
  {
    assert text[|prefix|] == ':' && text[..|prefix|] == prefix;
  }

  /** CashAddr is a canonical bijection. A text parses to an address if and only if, lower-cased and
      with its prefix restored, it is exactly what that address prints: so padding, checksum,
      version and spelling are all unique, and every printed address parses back. */
  lemma CanonicalBijection(expected: BitcoinCashNetwork, text: string, a: Address)
    ensures Parsed(expected, text) == Accept(a)
       <==> && !MixedCase(text) && Ascii(text)
            && a.network == NetworkOf(expected)
            && Printed(a) == Accept(Normal(expected, text))
  {
    hide ParsedParts, Printed, Lower, SplitText, Normal;
    var split := SplitText(expected, Lower(text));
    if split.Accept? {
      SplitColons(expected, Lower(text));
      SplitExact(expected, text, split.value.0, split.value.1);
      PartsExact(expected, split.value.0, split.value.1, a);
    }
    if a.network == NetworkOf(expected) {
      var payload := PrintedParts(a);
      SplitExact(expected, text, Prefix(a.network), payload);
      PartsExact(expected, Prefix(a.network), payload, a);
    }
  }

  lemma SplitColons(expected: BitcoinCashNetwork, text: string)
    requires SplitText(expected, text).Accept?
    ensures ':' !in SplitText(expected, text).value.0 && ':' !in SplitText(expected, text).value.1
  {
    PrefixAscii(NetworkOf(expected));
    assert text[..|text|] == text;
  }

  lemma PrintedParts(a: Address) returns (payload: string)
    requires a.network != LegacyNonMainnet
    ensures Printed(a) == Accept(Prefix(a.network) + ":" + payload)
    ensures ':' !in Prefix(a.network) && ':' !in payload && Lower(payload) == payload
  {
    hide WithChecksum, Spell, Body;
    PrefixAscii(a.network);
    ReadSpell(WithChecksum(Prefix(a.network), Body(a)));
    payload := Spell(WithChecksum(Prefix(a.network), Body(a)));
  }

  /** Printing and then parsing for a matching network returns the address. */
  lemma PrintThenParse(expected: BitcoinCashNetwork, a: Address)
    requires a.network == NetworkOf(expected)
    ensures Printed(a).Accept? && Parsed(expected, Printed(a).value) == Accept(a)
  {
    hide Printed, Parsed;
    var payload := PrintedParts(a);
    var text := Prefix(a.network) + ":" + payload;
    PrintedIsPlain(a);
    assert Lower(text) == text by {
      forall i | 0 <= i < |text| ensures LowerChar(text[i]) == text[i] {
        if i > |Prefix(a.network)| { assert Lower(payload)[i - |Prefix(a.network)| - 1] == text[i]; }
      }
    }
    assert text[|Prefix(a.network)|] == ':';
    CanonicalBijection(expected, text, a);
  }

  /** The same address in capitals, as its text may also be written. */
  function Upper(text: string): (r: string)
    ensures |r| == |text| && forall i :: 0 <= i < |r| ==> r[i] == UpperChar(text[i])
  {
    seq(|text|, i requires 0 <= i < |text| => UpperChar(text[i]))
  }

  function UpperChar(c: char): char {
    if 'a' <= c <= 'z' then (c as int - 32) as char else c
  }

  /** Every printed address also parses in capitals. */
  lemma CapitalsParse(expected: BitcoinCashNetwork, a: Address)
    requires a.network == NetworkOf(expected)
    ensures Printed(a).Accept? && Parsed(expected, Upper(Printed(a).value)) == Accept(a)
  {
    hide Printed, Parsed, Prefix;
    var payload := PrintedParts(a);
    PrintedIsPlain(a);
    var text := Printed(a).value;
    var capitals := Upper(text);
    assert text[|Prefix(a.network)|] == ':' && capitals[|Prefix(a.network)|] == ':';
    forall c | c in capitals ensures c < 128 as char && !IsLower(c) {
      var i :| 0 <= i < |capitals| && capitals[i] == c;
      assert text[i] in text;
    }
    forall i | 0 <= i < |text| ensures LowerChar(capitals[i]) == text[i] { assert text[i] in text; }
    assert Lower(capitals) == text;
    CanonicalBijection(expected, capitals, a);
  }

  lemma PrintedIsPlain(a: Address)
    requires a.network != LegacyNonMainnet
    ensures Ascii(Printed(a).value) && !MixedCase(Printed(a).value) && forall c <- Printed(a).value :: !IsUpper(c)
  {
    hide WithChecksum, Body;
    CharsetPlain();
    PrefixPlain(a.network);
    var values := WithChecksum(Prefix(a.network), Body(a));
    var text := Prefix(a.network) + ":" + Spell(values);
    forall c | c in text ensures c < 128 as char && !IsUpper(c) {
      var i :| 0 <= i < |text| && text[i] == c;
      if i < |Prefix(a.network)| { assert c in Prefix(a.network); }
    }
  }

  lemma CharsetPlain()
    ensures forall i :: 0 <= i < 32 ==> CHARSET[i] < 128 as char && !IsUpper(CHARSET[i])
  {}

  lemma PrefixPlain(network: AddressNetwork)
    ensures forall c :: c in Prefix(network) ==> c < 128 as char && !IsUpper(c)
  {}

  /** Overwriting up to eight consecutive payload characters of a printed address, with anything, leaves
      it as it was or gives a text that every parse rejects. */
  lemma {:induction false} OverwriteDetected(a: Address, text: string, lo: nat, hi: nat)
    requires a.network != LegacyNonMainnet && |text| == |Printed(a).value|
    requires |Prefix(a.network)| < lo <= hi <= |text| && hi - lo <= 8
    requires text[..lo] == Printed(a).value[..lo] && text[hi..] == Printed(a).value[hi..]
    ensures text == Printed(a).value || forall expected :: Parsed(expected, text).Reject?
  {
    hide Printed, Parsed;
    var payload := PrintedParts(a);
    forall expected | Parsed(expected, text).Accept? ensures text == Printed(a).value {
      Overwritten(expected, a, Parsed(expected, text).value, Prefix(a.network) + ":" + payload, text, lo, hi);
    }
  }

  lemma Overwritten(expected: BitcoinCashNetwork, a: Address, b: Address, printed: string, text: string, lo: nat,
                    hi: nat)
    requires a.network != LegacyNonMainnet && Printed(a) == Accept(printed) && Parsed(expected, text) == Accept(b)
    requires |Prefix(a.network)| < lo <= hi <= |text| == |printed| && hi - lo <= 8
    requires text[..lo] == printed[..lo] && text[hi..] == printed[hi..]
    ensures text == printed
  {
    hide Printed, Parsed, MixedCase, Lower, Ascii, Prefix;
    var payload := PrintedParts(a);
    var from := |Prefix(a.network)| + 1;
    SameStart(Prefix(a.network) + ":", payload, text, lo);
    CanonicalBijection(expected, text, b);
    StartsLower(a.network, text);
    var other := PrintedParts(b);
    SamePrefix(a.network, b.network, text, other);
    WindowMoved(Prefix(a.network) + ":", payload, other, lo, hi);
    SamePayload(a, b, payload, other, lo - from, hi - from);
  }

  lemma SameStart(head: string, payload: string, text: string, lo: nat)
    requires |head| <= lo <= |text| && lo <= |head + payload| && text[..lo] == (head + payload)[..lo]
    ensures text[..|head|] == head
  {
    assert text[..|head|] == text[..lo][..|head|] && (head + payload)[..lo][..|head|] == head;
  }

  lemma WindowMoved(head: string, payload: string, other: string, lo: nat, hi: nat)
    requires |head| <= lo <= hi <= |head + payload| == |head + other|
    requires (head + other)[..lo] == (head + payload)[..lo] && (head + other)[hi..] == (head + payload)[hi..]
    ensures payload[..lo - |head|] == other[..lo - |head|] && payload[hi - |head|..] == other[hi - |head|..]
  {
    var n := |head|;
    assert payload[..lo - n] == (head + payload)[..lo][n..] && other[..lo - n] == (head + other)[..lo][n..];
    assert payload[hi - n..] == (head + payload)[hi..] && other[hi - n..] == (head + other)[hi..];
  }

  /** A text that starts with a prefix and a colon and is of one case is lower case and normal. */
  lemma StartsLower(network: AddressNetwork, text: string)
    requires network != LegacyNonMainnet && |Prefix(network)| < |text|
    requires text[..|Prefix(network)| + 1] == Prefix(network) + ":" && !MixedCase(text)
    ensures Lower(text) == text && ':' in text
  {
    assert text[0] == text[..|Prefix(network)| + 1][0] == Prefix(network)[0] && IsLower(text[0]) && text[0] in text;
    forall c | c in text ensures LowerChar(c) == c {}
    assert text[|Prefix(network)|] == text[..|Prefix(network)| + 1][|Prefix(network)|] == ':';
  }

  lemma SamePrefix(m: AddressNetwork, n: AddressNetwork, text: string, payload: string)
    requires m != LegacyNonMainnet && n != LegacyNonMainnet && |Prefix(m)| < |text|
    requires text[..|Prefix(m)| + 1] == Prefix(m) + ":" && text == Prefix(n) + ":" + payload
    ensures m == n
  {
    var start := text[..|Prefix(m)| + 1];
    assert text[1] == start[1] == Prefix(m)[1] && text[1] == Prefix(n)[1];
    assert text[3] == start[3] == Prefix(m)[3] && text[3] == Prefix(n)[3];
  }

  lemma {:induction false} SamePayload(a: Address, b: Address, payloadA: string, payloadB: string, lo: nat, hi: nat)
    requires a.network == b.network != LegacyNonMainnet
    requires Printed(a) == Accept(Prefix(a.network) + ":" + payloadA)
    requires Printed(b) == Accept(Prefix(b.network) + ":" + payloadB)
    requires lo <= hi <= |payloadA| == |payloadB| && hi - lo <= 8
    requires payloadA[..lo] == payloadB[..lo] && payloadA[hi..] == payloadB[hi..]
    ensures a == b
  {
    hide Polymod, WithChecksum, Body, Spell, Read, AsVectors, ExpandPrefix;
    var prefix := Prefix(a.network);
    PrefixAscii(a.network);
    var x, y := WithChecksum(prefix, Body(a)), WithChecksum(prefix, Body(b));
    Cancel(prefix + ":", Spell(x), payloadA);
    Cancel(prefix + ":", Spell(y), payloadB);
    ReadSpell(x);
    ReadSpell(y);
    ReadWindow(payloadA, payloadB, lo, hi);
    ChecksumExact(prefix, x);
    ChecksumExact(prefix, y);
    WindowOfSymbols(ExpandPrefix(prefix), x, y, lo, hi);
    BodyExact(a.network, Body(a), a);
    BodyExact(a.network, Body(a), b);
  }

  lemma ReadWindow(s: string, t: string, lo: nat, hi: nat)
    requires Spellable(s) && Spellable(t)
    requires lo <= hi <= |s| == |t| && s[..lo] == t[..lo] && s[hi..] == t[hi..]
    ensures Read(s)[..lo] == Read(t)[..lo] && Read(s)[hi..] == Read(t)[hi..]
  {
    forall i | 0 <= i < lo ensures Read(s)[i] == Read(t)[i] { assert s[..lo][i] == t[..lo][i]; }
    forall i | hi <= i < |s| ensures Read(s)[i] == Read(t)[i] { assert s[hi..][i - hi] == t[hi..][i - hi]; }
  }

  lemma VectorsSplit(x: seq<nat>, n: nat)
    requires Symbols(x) && n <= |x|
    ensures AsVectors(x) == AsVectors(x[..n]) + AsVectors(x[n..])
  {}

  lemma ThreeParts(start: seq<bv8>, x: seq<nat>, lo: nat, hi: nat)
    requires Symbols(x) && lo <= hi <= |x|
    ensures start + AsVectors(x) == (start + AsVectors(x[..lo])) + AsVectors(x[lo..hi]) + AsVectors(x[hi..])
  {
    VectorsSplit(x, hi);
    VectorsSplit(x[..hi], lo);
    assert x[..hi][..lo] == x[..lo] && x[..hi][lo..] == x[lo..hi];
    hide AsVectors;
    assert start + AsVectors(x) == (start + AsVectors(x[..lo])) + AsVectors(x[lo..hi]) + AsVectors(x[hi..]);
  }

  lemma {:induction false} WindowOfSymbols(start: seq<bv8>, x: seq<nat>, y: seq<nat>, lo: nat, hi: nat)
    requires Symbols(x) && Symbols(y) && lo <= hi <= |x| == |y| && hi - lo <= 8
    requires x[..lo] == y[..lo] && x[hi..] == y[hi..]
    requires Polymod(start + AsVectors(x)) == 0 == Polymod(start + AsVectors(y))
    ensures x == y
  {
    hide Polymod, AsVectors;
    var u, w := AsVectors(x[lo..hi]), AsVectors(y[lo..hi]);
    VectorRoundTrip(x[lo..hi], []);
    VectorRoundTrip(y[lo..hi], []);
    ThreeParts(start, x, lo, hi);
    ThreeParts(start, y, lo, hi);
    if u != w {
      BurstDetected(start + AsVectors(x[..lo]), u, w, AsVectors(x[hi..]));
    }
    assert x == x[..lo] + x[lo..hi] + x[hi..];
    assert y == y[..lo] + y[lo..hi] + y[hi..];
  }

  // ---------------------------------------------------------------- the checksummed text

  /** What the checksum runs over, by position: the low five bits of each prefix character, a zero, the
      symbols. */
  predicate ChecksumText(prefix: string, values: seq<nat>, t: seq<bv8>) {
    && |t| == |prefix| + 1 + |values| && t[|prefix|] == 0
    && (forall i :: 0 <= i < |prefix| ==> t[i] as int == prefix[i] as int % 32)
    && (forall i :: 0 <= i < |values| ==> t[|prefix| + 1 + i] as int == values[i])
  }

  /** The text is the prefix, a colon and spelled symbols whose checksum over both is zero. */
  ghost predicate Checked(prefix: string, text: string) {
    exists values, t :: Symbols(values) && text == prefix + ":" + Spell(values)
      && ChecksumText(prefix, values, t) && Polymod(t) == 0
  }

  lemma ExpandedText(prefix: string, values: seq<nat>)
    requires Ascii(prefix) && Symbols(values)
    ensures ChecksumText(prefix, values, ExpandPrefix(prefix) + AsVectors(values))
  {
    var t := ExpandPrefix(prefix) + AsVectors(values);
    forall i | 0 <= i < |prefix| ensures t[i] as int == prefix[i] as int % 32 { OneValue(prefix[i] as int % 32); }
    forall i | 0 <= i < |values| ensures t[|prefix| + 1 + i] as int == values[i] { OneValue(values[i]); }
  }

  lemma PrintedChecked(a: Address)
    ensures Printed(a).Accept? ==> Checked(Prefix(a.network), Printed(a).value)
  {
    hide Polymod, WithChecksum, Body, Spell, AsVectors, ExpandPrefix, ChecksumText;
    if a.network != LegacyNonMainnet {
      var prefix := Prefix(a.network);
      PrefixAscii(a.network);
      var values := WithChecksum(prefix, Body(a));
      ChecksumExact(prefix, values);
      ExpandedText(prefix, values);
    }
  }

  lemma ColonKept(text: string)
    ensures ':' in Lower(text) <==> ':' in text
  {
    forall i | 0 <= i < |text| ensures Lower(text)[i] == ':' <==> text[i] == ':' {}
  }

  lemma MixedExactly(expected: BitcoinCashNetwork, text: string)
    ensures Parsed(expected, text) == Reject(MixedCaseAddress) <==>
      (exists c <- text :: 'a' <= c <= 'z') && (exists c <- text :: 'A' <= c <= 'Z')
  {
    hide Parsed, MixedCase;
    MixedMeans(text);
    OnlyMixed(expected, text);
  }

  lemma MixedMeans(text: string)
    ensures MixedCase(text) <==> (exists c <- text :: 'a' <= c <= 'z') && (exists c <- text :: 'A' <= c <= 'Z')
  {
    forall c <- text ensures IsLower(c) == ('a' <= c <= 'z') && IsUpper(c) == ('A' <= c <= 'Z') {}
  }

  lemma OnlyMixed(expected: BitcoinCashNetwork, text: string)
    ensures Parsed(expected, text) == Reject(MixedCaseAddress) <==> MixedCase(text)
  {
    hide MixedCase, Ascii, Lower, ParsedParts;
    if !MixedCase(text) && Ascii(text) && SplitText(expected, Lower(text)).Accept? {
      var (prefix, payload) := SplitText(expected, Lower(text)).value;
      PartsNotMixed(expected, prefix, payload);
    }
  }

  lemma PartsNotMixed(expected: BitcoinCashNetwork, prefix: string, payload: string)
    ensures ParsedParts(expected, prefix, payload) != Reject(MixedCaseAddress)
  {
    hide Regrouping, Polymod, Read, AsVectors, ExpandPrefix, Spellable;
  }

  /** The prefix each network's addresses carry. */
  function PrefixFor(network: BitcoinCashNetwork): string {
    if network == Mainnet then "bitcoincash" else if network == Regtest then "bchreg" else "bchtest"
  }

  lemma ParsedChecked(expected: BitcoinCashNetwork, text: string)
    ensures Parsed(expected, text).Accept? ==>
      Checked(PrefixFor(expected), if ':' in text then Lower(text) else PrefixFor(expected) + ":" + Lower(text))
  {
    hide Parsed, Printed, Checked;
    ColonKept(text);
    if Parsed(expected, text).Accept? {
      CanonicalBijection(expected, text, Parsed(expected, text).value);
      PrintedChecked(Parsed(expected, text).value);
    }
  }
}
