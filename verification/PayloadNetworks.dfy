/** Which network a CashAddr payload belongs to: the checksum runs over the prefix too. */
module PayloadNetworks {
  import opened Checksum
  import opened Networks
  import opened CashAddr
  import opened Regroup

  // ---------------------------------------------------------------- the state after each prefix

  /** A run over six symbols, from its six steps. */
  lemma Six(c: bv64, v: seq<bv8>, c1: bv64, c2: bv64, c3: bv64, c4: bv64, c5: bv64, c6: bv64)
    requires |v| == 6 && Step(c, v[0]) == c1 && Step(c1, v[1]) == c2 && Step(c2, v[2]) == c3
    requires Step(c3, v[3]) == c4 && Step(c4, v[4]) == c5 && Step(c5, v[5]) == c6
    ensures Run(c, v) == c6
  {
    hide Step;
    assert v[..1] == [v[0]] && v[..1][..0] == [];
    assert v[..2][..1] == v[..1] && v[..3][..2] == v[..2] && v[..4][..3] == v[..3] && v[..5][..4] == v[..4];
    assert Run(c, v[..1]) == c1 && Run(c, v[..2]) == c2 && Run(c, v[..3]) == c3;
    assert Run(c, v[..4]) == c4 && Run(c, v[..5]) == c5;
  }

  lemma One(c: bv64, v: bv8)
    ensures Run(c, [v]) == Step(c, v)
  {
    hide Step;
    assert [v][..0] == [];
  }

  lemma MainnetHalf()
    ensures Run(1, [2, 9, 20, 3, 15, 9]) == 0x449a0de9
  {
    hide Run;
    Six(1, [2, 9, 20, 3, 15, 9], 0x22, 0x449, 0x8934, 0x112683, 0x224d06f, 0x449a0de9);
  }

  lemma MainnetRest()
    ensures Run(0x449a0de9, [14, 3, 1, 19, 8, 0]) == 0xf669cd6d15
  {
    hide Run;
    Six(0x449a0de9, [14, 3, 1, 19, 8, 0],
        0x89341bd2e, 0x8a9a8b2ba2, 0xd5ec9a1e50, 0x7445c65529, 0xac1f536da6, 0xf669cd6d15);
  }

  lemma TestHalf()
    ensures Run(1, [2, 3, 8, 20, 5, 19]) == 0x443450b3
  {
    hide Run;
    Six(1, [2, 3, 8, 20, 5, 19], 0x22, 0x443, 0x8868, 0x110d14, 0x221a285, 0x443450b3);
  }

  lemma RegtestHalf()
    ensures Run(1, [2, 3, 8, 18, 5, 7]) == 0x443448a7
  {
    hide Run;
    Six(1, [2, 3, 8, 18, 5, 7], 0x22, 0x443, 0x8868, 0x110d12, 0x221a245, 0x443448a7);
  }

  lemma Expanded()
    ensures Ascii("bitcoincash") && ExpandPrefix("bitcoincash") == [2, 9, 20, 3, 15, 9] + [14, 3, 1, 19, 8, 0]
  {}

  lemma ExpandedTest()
    ensures Ascii("bchtest") && ExpandPrefix("bchtest") == [2, 3, 8, 20, 5, 19] + [20] + [0]
  {}

  lemma ExpandedRegtest()
    ensures Ascii("bchreg") && ExpandPrefix("bchreg") == [2, 3, 8, 18, 5, 7] + [0]
  {}

  lemma MainnetState()
    ensures Ascii("bitcoincash") && Run(1, ExpandPrefix("bitcoincash")) == 0xf669cd6d15
  {
    hide Run, ExpandPrefix, Ascii;
    Expanded();
    MainnetHalf();
    MainnetRest();
    RunAppend(1, [2, 9, 20, 3, 15, 9], [14, 3, 1, 19, 8, 0]);
  }

  lemma TestState()
    ensures Ascii("bchtest") && Run(1, ExpandPrefix("bchtest")) == 0x8823fe40e1
  {
    hide Run, ExpandPrefix, Ascii;
    ExpandedTest();
    TestHalf();
    RunAppend(1, [2, 3, 8, 20, 5, 19], [20]);
    RunAppend(1, [2, 3, 8, 20, 5, 19] + [20], [0]);
    One(0x443450b3, 20);
    One(0x8868a1674, 0);
  }

  lemma RegtestState()
    ensures Ascii("bchreg") && Run(1, ExpandPrefix("bchreg")) == 0x8868914e0
  {
    hide Run, ExpandPrefix, Ascii;
    ExpandedRegtest();
    RegtestHalf();
    RunAppend(1, [2, 3, 8, 18, 5, 7], [0]);
    One(0x443448a7, 0);
  }

  // ---------------------------------------------------------------- one payload, one network

  predicate HasPrefix(network: AddressNetwork) {
    network != LegacyNonMainnet
  }

  lemma StatesApart(m: AddressNetwork, n: AddressNetwork)
    requires HasPrefix(m) && HasPrefix(n)
    ensures Ascii(Prefix(m)) && Ascii(Prefix(n))
    ensures Run(1, ExpandPrefix(Prefix(m))) == Run(1, ExpandPrefix(Prefix(n))) <==> m == n
  {
    hide Run, ExpandPrefix, Ascii;
    MainnetState();
    TestState();
    RegtestState();
  }

  /** No text of symbols passes the checksum under the prefixes of two networks. */
  lemma ChecksumOfOneNetwork(m: AddressNetwork, n: AddressNetwork, t: seq<bv8>)
    requires HasPrefix(m) && HasPrefix(n) && m != n
    ensures Ascii(Prefix(m)) && Ascii(Prefix(n))
    ensures Polymod(ExpandPrefix(Prefix(m)) + t) != Polymod(ExpandPrefix(Prefix(n)) + t)
  {
    hide Run, ExpandPrefix, Ascii, Add, Prefix;
    StatesApart(m, n);
    var a, b := ExpandPrefix(Prefix(m)), ExpandPrefix(Prefix(n));
    RunAppend(1, a, t);
    RunAppend(1, b, t);
    RunInRange(1, a);
    RunInRange(1, b);
    if Polymod(a + t) == Polymod(b + t) {
      SameAfterOne(Run(1, a + t), Run(1, b + t));
      RunInjective(Run(1, a), Run(1, b), t);
    }
  }

  lemma SameAfterOne(c: bv64, d: bv64)
    requires Add(c, 1) == Add(d, 1)
    ensures c == d
  {
    hide Add;
    AddLaws(c, 1, 1);
    AddLaws(d, 1, 1);
    AddLaws(1, 1, 1);
  }

  /** The text after the prefix and colon. */
  ghost function Payload(a: Address): (r: string)
    requires HasPrefix(a.network)
    ensures Printed(a) == Accept(Prefix(a.network) + ":" + r)
  {
    PrefixAscii(a.network);
    Spell(WithChecksum(Prefix(a.network), Body(a)))
  }

  predicate Plain(text: string) {
    forall c :: c in text ==> c < 128 as char && !IsUpper(c)
  }

  lemma PlainText(text: string)
    requires Plain(text)
    ensures Ascii(text) && !MixedCase(text) && Lower(text) == text
  {
    forall i | 0 <= i < |text| ensures LowerChar(text[i]) == text[i] { assert text[i] in text; }
  }

  lemma PayloadPlain(a: Address)
    requires HasPrefix(a.network)
    ensures Plain(Payload(a)) && ':' !in Payload(a)
  {
    hide WithChecksum, Body;
    PrefixAscii(a.network);
    CharsetPlain();
    ReadSpell(WithChecksum(Prefix(a.network), Body(a)));
  }

  lemma WithPrefixPlain(network: AddressNetwork, payload: string)
    requires Plain(payload)
    ensures Plain(Prefix(network) + ":" + payload)
  {
    PrefixPlain(network);
    hide Prefix;
    forall c | c in Prefix(network) + ":" + payload ensures c < 128 as char && !IsUpper(c) {
      assert c in Prefix(network) || c == ':' || c in payload;
    }
  }

  /** A text with one colon is split there; a text with none gets the expected prefix. */
  lemma SplitAt(expected: BitcoinCashNetwork, prefix: string, payload: string)
    requires ':' !in prefix && ':' !in payload
    ensures SplitText(expected, prefix + ":" + payload) == Accept((prefix, payload))
    ensures SplitText(expected, payload) == Accept((Prefix(NetworkOf(expected)), payload))
  {
    var text := prefix + ":" + payload;
    assert text[|prefix|] == ':' && text[..|text|] == text;
    ColonAt(text, prefix, payload, IndexOf(text, ':'));
  }

  lemma PartsRefused(expected: BitcoinCashNetwork, a: Address)
    requires HasPrefix(a.network) && a.network != NetworkOf(expected)
    ensures ParsedParts(expected, Prefix(NetworkOf(expected)), Payload(a)) == Reject(InvalidChecksum)
    ensures ParsedParts(expected, Prefix(a.network), Payload(a)) ==
      Reject(WrongNetwork(expected, NetworkName(a.network)))
  {
    hide Polymod, ExpandPrefix, AsVectors, WithChecksum, Body, Read, Regrouping;
    PrefixAscii(a.network);
    PrefixAscii(NetworkOf(expected));
    var values := WithChecksum(Prefix(a.network), Body(a));
    ReadSpell(values);
    ChecksumExact(Prefix(a.network), values);
    ChecksumOfOneNetwork(a.network, NetworkOf(expected), AsVectors(values));
  }

  /** A payload of one network is refused by another, bare, under the other's prefix and under its own. */
  lemma PayloadOfOneNetwork(expected: BitcoinCashNetwork, a: Address)
    requires HasPrefix(a.network) && a.network != NetworkOf(expected)
    ensures Parsed(expected, Payload(a)) == Reject(InvalidChecksum)
    ensures Parsed(expected, Prefix(NetworkOf(expected)) + ":" + Payload(a)) == Reject(InvalidChecksum)
    ensures Parsed(expected, Prefix(a.network) + ":" + Payload(a)) ==
      Reject(WrongNetwork(expected, match a.network
        case MainnetAddress => "mainnet" case TestFamily => "test-family" case _ => "regtest"))
  {
    hide ParsedParts, Payload, SplitText, Plain, Ascii, MixedCase, Prefix;
    PartsRefused(expected, a);
    PayloadPlain(a);
    PlainText(Payload(a));
    PrefixAscii(a.network);
    PrefixAscii(NetworkOf(expected));
    WithPrefixPlain(a.network, Payload(a));
    WithPrefixPlain(NetworkOf(expected), Payload(a));
    PlainText(Prefix(a.network) + ":" + Payload(a));
    PlainText(Prefix(NetworkOf(expected)) + ":" + Payload(a));
    SplitAt(expected, Prefix(a.network), Payload(a));
    SplitAt(expected, Prefix(NetworkOf(expected)), Payload(a));
  }
}
