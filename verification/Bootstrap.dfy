/** Executor bootstrap: profiles are sorted, each is built and recorded, and later records overwrite earlier
    ones. What each chain finally reports is a fact about its newest profile. */
module Bootstrap {
  import opened Options

  datatype Chain = Bitcoin | BitcoinCash | Bsv | FractalBitcoin | Kaspa | Chia | Ergo

  type Uuid = nat
  type Suite = nat
  type Backend = nat
  type Code = string

  datatype Scope = Scope(chain: Chain, network: nat)

  datatype Profile = Profile(
    id: Uuid, scope: Scope, suite: Suite, backend: Backend, signerSet: string, epoch: nat, threshold: nat,
    maxSigners: nat)

  datatype Descriptor = Descriptor(backend: Backend, executable: bool)

  datatype Build<+K> = Built(key: K) | NotBuilt(code: Code)

  datatype Factory<!K> = Factory(backend: Backend, build: Profile -> Build<K>)

  /** The suite table, the configured factories and the key each profile stands for. */
  datatype Env<!K> = Env(resolve: (Scope, Suite) -> Option<Descriptor>, factories: seq<Factory<K>>, keyOf: Profile -> K)

  datatype Health = Unavailable | Ready | Failed

  datatype Status = Status(
    scope: Scope, suite: Suite, ready: bool, profile: Option<Profile>, backend: Backend, health: Health,
    error: Option<Code>)

  type Surface = map<Chain, Status>

  datatype Registration = Registration(id: Uuid, scope: Scope, error: Option<Code>)

  // ---------------------------------------------------------------- building

  predicate Plausible(p: Profile) {
    p.id != 0 && p.signerSet != "" && p.epoch != 0 && p.threshold != 0 && p.threshold <= p.maxSigners
  }

  function FirstFactory<K>(factories: seq<Factory<K>>, backend: Backend): Option<Factory<K>> {
    if factories == [] then None
    else if factories[0].backend == backend then Some(factories[0])
    else FirstFactory(factories[1..], backend)
  }

  /** `build_validated_executor`. */
  function BuildValidated<K(==)>(x: Env<K>, p: Profile): Build<K> {
    var suite := x.resolve(p.scope, p.suite);
    if !Plausible(p) then NotBuilt("executor-profile-invalid")
    else if suite.None? || suite.value.backend != p.backend then NotBuilt("executor-profile-unsupported")
    else if !suite.value.executable then NotBuilt("executor-suite-unavailable")
    else if FirstFactory(x.factories, p.backend).None? then NotBuilt("executor-backend-unconfigured")
    else
      var built := FirstFactory(x.factories, p.backend).value.build(p);
      if built.Built? && built.key != x.keyOf(p) then NotBuilt("executor-key-mismatch") else built
  }

  // ---------------------------------------------------------------- recording

  datatype ConfigurationError = UnsupportedSigningSuite | SigningSuiteNotExecutable

  datatype Configuration = Accepted(surface: Surface) | Refused(error: ConfigurationError)

  predicate Executable<K>(x: Env<K>, scope: Scope, suite: Suite) {
    x.resolve(scope, suite).Some? && x.resolve(scope, suite).value.executable
  }

  function Configured<K>(x: Env<K>, s: Surface, scope: Scope, suite: Suite): (r: Configuration)
    ensures r.Accepted? <==> Executable(x, scope, suite)
  {
    var d := x.resolve(scope, suite);
    if d.None? then Refused(UnsupportedSigningSuite)
    else if !d.value.executable then Refused(SigningSuiteNotExecutable)
    else Accepted(s[scope.chain := Status(scope, suite, false, None, d.value.backend, Unavailable, None)])
  }

  function WithFailure(t: Status, p: Profile, code: Code): Status {
    Status(t.scope, t.suite, false, Some(p), p.backend, Failed, Some(code))
  }

  function Recorded<K(==)>(x: Env<K>, s: Surface, p: Profile): Surface
    requires p.scope.chain in s
  {
    var configured := Configured(x, s, p.scope, p.suite);
    var base := if configured.Accepted? then configured.surface else s;
    var t := base[p.scope.chain];
    match BuildValidated(x, p)
    case Built(_) =>
      if configured.Accepted? then
        base[p.scope.chain := Status(t.scope, t.suite, true, Some(p), t.backend, Ready, None)]
      else base[p.scope.chain := WithFailure(t, p, "executor-profile-unsupported")]
    case NotBuilt(code) => base[p.scope.chain := WithFailure(t, p, code)]
  }

  ghost predicate Complete(s: Surface) {
    forall c: Chain :: c in s
  }

  /** Recording profiles in order. */
  function RecordedAll<K(==)>(x: Env<K>, s: Surface, ps: seq<Profile>): (r: Surface)
    requires forall p <- ps :: p.scope.chain in s
    ensures r.Keys == s.Keys
  {
    if ps == [] then s else Recorded(x, RecordedAll(x, s, ps[..|ps| - 1]), ps[|ps| - 1])
  }

  /** What a built executor's registration meets: its suite configures, so it is never turned down. */
  lemma BuiltIsConfigured<K>(x: Env<K>, s: Surface, p: Profile)
    requires BuildValidated(x, p).Built?
    ensures Configured(x, s, p.scope, p.suite).Accepted? && RegistrationOf(x, p).error.None?
  {}

  function RegistrationOf<K(==)>(x: Env<K>, p: Profile): Registration {
    var b := BuildValidated(x, p);
    Registration(p.id, p.scope,
                 if b.NotBuilt? then Some(b.code)
                 else if Executable(x, p.scope, p.suite) then None
                 else Some("executor-profile-unsupported"))
  }

  /** The keys of the executors built, in order: what the wallet is given. */
  function KeysBuilt<K(==)>(x: Env<K>, ps: seq<Profile>): seq<K> {
    if ps == [] then []
    else
      var b := BuildValidated(x, ps[|ps| - 1]);
      KeysBuilt(x, ps[..|ps| - 1]) + (if b.Built? then [b.key] else [])
  }

  // ---------------------------------------------------------------- order

  /** The order in which the chains are declared. */
  const CHAINS: seq<Chain> := [Bitcoin, BitcoinCash, Bsv, FractalBitcoin, Kaspa, Chia, Ergo]

  function ChainRank(c: Chain): (r: nat)
    ensures r < 7 && CHAINS[r] == c
  {
    match c
    case Bitcoin => 0
    case BitcoinCash => 1
    case Bsv => 2
    case FractalBitcoin => 3
    case Kaspa => 4
    case Chia => 5
    case Ergo => 6
  }

  /** Chain, then epoch, then profile identifier. */
  predicate NotAfter(p: Profile, q: Profile) {
    var a, b := ChainRank(p.scope.chain), ChainRank(q.scope.chain);
    a < b || (a == b && (p.epoch < q.epoch || (p.epoch == q.epoch && p.id <= q.id)))
  }

  /** `p` may stand before `q`, on their fields: an earlier chain, then an older epoch, then an identifier. */
  predicate InOrder(p: Profile, q: Profile) {
    || ChainRank(p.scope.chain) < ChainRank(q.scope.chain)
    || (p.scope.chain == q.scope.chain && p.epoch < q.epoch)
    || (p.scope.chain == q.scope.chain && p.epoch == q.epoch && p.id <= q.id)
  }

  predicate SameKey(p: Profile, q: Profile) {
    p.scope.chain == q.scope.chain && p.epoch == q.epoch && p.id == q.id
  }

  predicate Sorted(ps: seq<Profile>) {
    forall i, j :: 0 <= i < j < |ps| ==> InOrder(ps[i], ps[j])
  }

  /** The profiles with the key of `k`, in order. */
  function Keyed(ps: seq<Profile>, k: Profile): seq<Profile> {
    if ps == [] then []
    else Keyed(ps[..|ps| - 1], k) + (if SameKey(ps[|ps| - 1], k) then [ps[|ps| - 1]] else [])
  }

  /** `s` is a stable sort of `ps`: ordered, with the profiles of each key as they were. */
  ghost predicate StableSortOf(s: seq<Profile>, ps: seq<Profile>) {
    Sorted(s) && forall k :: Keyed(s, k) == Keyed(ps, k)
  }

  function Inserted(s: seq<Profile>, p: Profile): seq<Profile> {
    if s == [] || NotAfter(s[|s| - 1], p) then s + [p] else Inserted(s[..|s| - 1], p) + [s[|s| - 1]]
  }

  function StableSort(ps: seq<Profile>): seq<Profile> {
    if ps == [] then [] else Inserted(StableSort(ps[..|ps| - 1]), ps[|ps| - 1])
  }

  lemma {:induction false} InsertedMembers(s: seq<Profile>, p: Profile)
    ensures forall q :: q in Inserted(s, p) <==> q == p || q in s
  {
    if s != [] && !NotAfter(s[|s| - 1], p) {
      InsertedMembers(s[..|s| - 1], p);
      assert s == s[..|s| - 1] + [s[|s| - 1]];
    }
  }

  lemma {:induction false} InsertedSorted(s: seq<Profile>, p: Profile)
    requires Sorted(s)
    ensures Sorted(Inserted(s, p))
  {
    if s != [] {
      var shorter, last := s[..|s| - 1], s[|s| - 1];
      if NotAfter(last, p) {
        assert forall i | 0 <= i < |s| - 1 :: NotAfter(s[i], last);
      } else {
        InsertedSorted(shorter, p);
        InsertedMembers(shorter, p);
        var r := Inserted(shorter, p);
        forall i | 0 <= i < |r| ensures NotAfter(r[i], last) {
          assert r[i] in r;
        }
      }
    }
  }

  lemma NotBothKeyed(p: Profile, q: Profile, k: Profile)
    requires !NotAfter(p, q)
    ensures !(SameKey(p, k) && SameKey(q, k))
  {}

  lemma {:induction false} InsertedKeyed(s: seq<Profile>, p: Profile, k: Profile)
    ensures Keyed(Inserted(s, p), k) == Keyed(s, k) + (if SameKey(p, k) then [p] else [])
  {
    hide NotAfter, SameKey;
    if s == [] || NotAfter(s[|s| - 1], p) {
      assert (s + [p])[..|s|] == s;
    } else {
      var shorter, last := s[..|s| - 1], s[|s| - 1];
      var r := Inserted(shorter, p);
      InsertedKeyed(shorter, p, k);
      NotBothKeyed(last, p, k);
      assert (r + [last])[..|r|] == r;
    }
  }

  lemma {:induction false} SortPermutes(ps: seq<Profile>)
    ensures multiset(StableSort(ps)) == multiset(ps)
  {
    if ps != [] {
      SortPermutes(ps[..|ps| - 1]);
      InsertPermutes(StableSort(ps[..|ps| - 1]), ps[|ps| - 1]);
      assert ps == ps[..|ps| - 1] + [ps[|ps| - 1]];
    }
  }

  lemma {:induction false} InsertPermutes(s: seq<Profile>, p: Profile)
    ensures multiset(Inserted(s, p)) == multiset(s) + multiset{p}
  {
    hide NotAfter;
    if s != [] && !NotAfter(s[|s| - 1], p) {
      InsertPermutes(s[..|s| - 1], p);
      assert s == s[..|s| - 1] + [s[|s| - 1]];
    }
  }

  lemma {:induction false} StableSortSorts(ps: seq<Profile>)
    ensures StableSortOf(StableSort(ps), ps) && multiset(StableSort(ps)) == multiset(ps)
  {
    SortPermutes(ps);
    if ps != [] {
      var shorter := ps[..|ps| - 1];
      StableSortSorts(shorter);
      InsertedSorted(StableSort(shorter), ps[|ps| - 1]);
      forall k ensures Keyed(StableSort(ps), k) == Keyed(ps, k) {
        InsertedKeyed(StableSort(shorter), ps[|ps| - 1], k);
      }
    }
  }

  lemma {:induction false} KeyedMember(ps: seq<Profile>, k: Profile)
    ensures forall p :: p in Keyed(ps, k) <==> p in ps && SameKey(p, k)
  {
    if ps != [] {
      KeyedMember(ps[..|ps| - 1], k);
      assert ps == ps[..|ps| - 1] + [ps[|ps| - 1]];
    }
  }

  /** There is only one stable sort, so it does not matter how it is computed. */
  lemma {:induction false} StableSortUnique(s: seq<Profile>, t: seq<Profile>)
    requires Sorted(s) && Sorted(t) && forall k :: Keyed(s, k) == Keyed(t, k)
    ensures s == t
  {
    hide NotAfter, Keyed;
    if s == [] {
      NothingKeyed(t, s);
    } else if t == [] {
      NothingKeyed(s, t);
    } else {
      SameLast(s, t);
      var shorter, others := s[..|s| - 1], t[..|t| - 1];
      forall k ensures Keyed(shorter, k) == Keyed(others, k) {
        DropLast(s, t, k);
      }
      StableSortUnique(shorter, others);
      assert s == shorter + [s[|s| - 1]] && t == others + [t[|t| - 1]];
    }
  }

  lemma NothingKeyed(s: seq<Profile>, none: seq<Profile>)
    requires none == [] && forall k :: Keyed(s, k) == Keyed(none, k)
    ensures s == []
  {
    if s != [] {
      SomethingKeyed(s);
    }
  }

  lemma SomethingKeyed(s: seq<Profile>)
    requires s != []
    ensures Keyed(s, s[0]) != []
  {
    KeyedMember(s, s[0]);
    assert s[0] in Keyed(s, s[0]);
  }

  lemma DropLast(s: seq<Profile>, t: seq<Profile>, k: Profile)
    requires s != [] && t != [] && s[|s| - 1] == t[|t| - 1] && Keyed(s, k) == Keyed(t, k)
    ensures Keyed(s[..|s| - 1], k) == Keyed(t[..|t| - 1], k)
  {
    var a, b := Keyed(s[..|s| - 1], k), Keyed(t[..|t| - 1], k);
    var c := if SameKey(s[|s| - 1], k) then [s[|s| - 1]] else [];
    assert a + c == b + c;
    assert a == (a + c)[..|a|] && b == (b + c)[..|b|];
  }

  lemma SameLast(s: seq<Profile>, t: seq<Profile>)
    requires s != [] && t != [] && Sorted(s) && Sorted(t) && forall k :: Keyed(s, k) == Keyed(t, k)
    ensures s[|s| - 1] == t[|t| - 1]
  {
    hide Sorted, Keyed;
    var p, q := s[|s| - 1], t[|t| - 1];
    NotBeyond(s, t, p);
    NotBeyond(t, s, q);
    LastKeyed(s, p);
    LastKeyed(t, p);
    assert Keyed(s, p) == Keyed(t, p);
  }

  /** A profile of one list is not after the last of the other, if both have the same profiles of its key. */
  lemma NotBeyond(s: seq<Profile>, t: seq<Profile>, p: Profile)
    requires p in s && t != [] && Sorted(t) && Keyed(s, p) == Keyed(t, p)
    ensures InOrder(p, t[|t| - 1])
  {
    KeyedMember(s, p);
    KeyedMember(t, p);
    assert p in t;
  }

  lemma LastKeyed(s: seq<Profile>, k: Profile)
    requires s != [] && SameKey(s[|s| - 1], k)
    ensures Keyed(s, k) != [] && Keyed(s, k)[|Keyed(s, k)| - 1] == s[|s| - 1]
  {}

  // ---------------------------------------------------------------- the newest profile of a kind

  /** Of the profiles of a kind, the one with the greatest key; of equals, the one listed last. */
  function Newest(kind: Profile -> bool, ps: seq<Profile>): Option<Profile> {
    if ps == [] then None
    else
      var before, p := Newest(kind, ps[..|ps| - 1]), ps[|ps| - 1];
      if !kind(p) || (before.Some? && !NotAfter(before.value, p)) then before else Some(p)
  }

  /** What that means: it is listed, of the kind, and nothing of the kind is after it. */
  lemma {:induction false} NewestIsGreatest(kind: Profile -> bool, ps: seq<Profile>)
    ensures Newest(kind, ps).None? <==> forall p <- ps :: !kind(p)
    ensures Newest(kind, ps).Some? ==>
      var n := Newest(kind, ps).value;
      n in ps && kind(n) && forall p <- ps :: kind(p) ==> InOrder(p, n)
  {
    if ps != [] {
      NewestIsGreatest(kind, ps[..|ps| - 1]);
      assert ps == ps[..|ps| - 1] + [ps[|ps| - 1]];
    }
  }

  function Last(kind: Profile -> bool, ps: seq<Profile>): Option<Profile> {
    if ps == [] then None else if kind(ps[|ps| - 1]) then Some(ps[|ps| - 1]) else Last(kind, ps[..|ps| - 1])
  }

  lemma {:induction false} LastInserted(kind: Profile -> bool, s: seq<Profile>, p: Profile)
    requires Sorted(s)
    ensures var before := Last(kind, s);
      Last(kind, Inserted(s, p)) == if !kind(p) || (before.Some? && !NotAfter(before.value, p)) then before else Some(p)
  {
    if s == [] || NotAfter(s[|s| - 1], p) {
      assert (s + [p])[..|s|] == s;
      LastInOrder(kind, s);
    } else {
      var shorter, last := s[..|s| - 1], s[|s| - 1];
      LastInserted(kind, shorter, p);
      assert (Inserted(shorter, p) + [last])[..|Inserted(shorter, p)|] == Inserted(shorter, p);
    }
  }

  lemma {:induction false} LastInOrder(kind: Profile -> bool, s: seq<Profile>)
    requires Sorted(s)
    ensures var last := Last(kind, s);
      last.Some? ==> s != [] && (last.value == s[|s| - 1] || NotAfter(last.value, s[|s| - 1]))
  {
    if s != [] && !kind(s[|s| - 1]) {
      LastInOrder(kind, s[..|s| - 1]);
    }
  }

  /** After sorting, the last profile of a kind is its newest. */
  lemma {:induction false} LastIsNewest(kind: Profile -> bool, ps: seq<Profile>)
    ensures Last(kind, StableSort(ps)) == Newest(kind, ps)
  {
    if ps != [] {
      var shorter := ps[..|ps| - 1];
      LastIsNewest(kind, shorter);
      StableSortSorts(shorter);
      LastInserted(kind, StableSort(shorter), ps[|ps| - 1]);
    }
  }

  // ---------------------------------------------------------------- what a chain reports

  function OfChain(c: Chain): Profile -> bool {
    (p: Profile) => p.scope.chain == c
  }

  /** The profiles of a chain whose suite resolves and is executable. */
  function ConfigurableOf<K>(x: Env<K>, c: Chain): Profile -> bool {
    (p: Profile) => p.scope.chain == c && Executable(x, p.scope, p.suite)
  }

  /** A chain's status is that of profile `p`: ready exactly when its executor was built with its key. */
  predicate Reports<K(==)>(x: Env<K>, t: Status, p: Profile) {
    var b := BuildValidated(x, p);
    && t.profile == Some(p) && t.backend == p.backend && t.ready == b.Built?
    && t.health == (if b.Built? then Ready else Failed)
    && t.error == (if b.Built? then None else Some(b.code))
  }

  /** A chain's status has the scope and suite of the profile given, or those it had before. */
  predicate Shows(t: Status, q: Option<Profile>, before: Status) {
    if q.Some? then t.scope == q.value.scope && t.suite == q.value.suite
    else t.scope == before.scope && t.suite == before.suite
  }

  lemma RecordedReports<K>(x: Env<K>, s: Surface, p: Profile)
    requires p.scope.chain in s
    ensures var t := Recorded(x, s, p)[p.scope.chain];
      Reports(x, t, p) && Shows(t, if Executable(x, p.scope, p.suite) then Some(p) else None, s[p.scope.chain])
    ensures forall c <- s :: c != p.scope.chain ==> Recorded(x, s, p)[c] == s[c]
  {}

  lemma {:induction false} LastReported<K>(x: Env<K>, s: Surface, ps: seq<Profile>, c: Chain)
    requires Complete(s)
    ensures var t := RecordedAll(x, s, ps)[c];
      && (Last(OfChain(c), ps).None? ==> t == s[c])
      && (Last(OfChain(c), ps).Some? ==> Reports(x, t, Last(OfChain(c), ps).value))
      && Shows(t, Last(ConfigurableOf(x, c), ps), s[c])
  {
    hide Recorded, Reports, Executable;
    if ps != [] {
      var shorter, p := ps[..|ps| - 1], ps[|ps| - 1];
      LastReported(x, s, shorter, c);
      RecordedReports(x, RecordedAll(x, s, shorter), p);
    }
  }

  /** Listed, of the chain, and no profile of the chain is newer, on their fields. */
  predicate IsNewest(n: Profile, ps: seq<Profile>, c: Chain) {
    && n in ps && n.scope.chain == c
    && forall p <- ps :: p.scope.chain == c ==> p.epoch < n.epoch || (p.epoch == n.epoch && p.id <= n.id)
  }

  lemma NewestOnFields(ps: seq<Profile>, c: Chain)
    ensures var n := Newest(OfChain(c), ps);
      if n.None? then forall p <- ps :: p.scope.chain != c else IsNewest(n.value, ps, c)
  {
    NewestIsGreatest(OfChain(c), ps);
    var n := Newest(OfChain(c), ps);
    if n.Some? {
      forall p <- ps | p.scope.chain == c
        ensures p.epoch < n.value.epoch || (p.epoch == n.value.epoch && p.id <= n.value.id)
      {
        assert OfChain(c)(p);
      }
    }
  }

  /** For every profile list: a chain with profiles reports its newest one, and is ready exactly when that
      one's executor was built with the matching key; a chain without keeps its status. The newest has the
      greatest epoch, and of those the greatest identifier. The scope and suite shown are those of its newest
      profile whose suite is executable, or those it had. */
  lemma NewestReported<K>(x: Env<K>, s: Surface, ps: seq<Profile>, c: Chain)
    requires Complete(s)
    ensures var t := RecordedAll(x, s, StableSort(ps))[c];
      var n := Newest(OfChain(c), ps);
      && (if n.None? then t == s[c] && (forall p <- ps :: p.scope.chain != c)
          else Reports(x, t, n.value) && IsNewest(n.value, ps, c))
      && Shows(t, Newest(ConfigurableOf(x, c), ps), s[c])
  {
    hide Reports, RecordedAll, Executable;
    NewestOnFields(ps, c);
    LastIsNewest(OfChain(c), ps);
    LastIsNewest(ConfigurableOf(x, c), ps);
    LastReported(x, s, StableSort(ps), c);
  }

  /** A newest profile that is configurable is the newest configurable one. */
  lemma {:induction false} NewestConfigurable<K>(x: Env<K>, ps: seq<Profile>, c: Chain)
    requires Newest(OfChain(c), ps).Some? && ConfigurableOf(x, c)(Newest(OfChain(c), ps).value)
    ensures Newest(ConfigurableOf(x, c), ps) == Newest(OfChain(c), ps)
  {
    hide Executable;
    var shorter, p := ps[..|ps| - 1], ps[|ps| - 1];
    var n := Newest(OfChain(c), ps).value;
    NewestIsGreatest(OfChain(c), shorter);
    NewestIsGreatest(ConfigurableOf(x, c), shorter);
    if Newest(OfChain(c), ps) == Newest(OfChain(c), shorter) && !(p == n && OfChain(c)(p)) {
      NewestConfigurable(x, shorter, c);
    }
  }

  /** Exactly when the scope and suite shown are those of the reported profile: when its suite is executable.
      The statuses a surface starts with are themselves configured ones. */
  lemma ShownExactly<K>(x: Env<K>, s: Surface, ps: seq<Profile>, c: Chain)
    requires Complete(s) && Executable(x, s[c].scope, s[c].suite) && Newest(OfChain(c), ps).Some?
    ensures var t := RecordedAll(x, s, StableSort(ps))[c];
      var n := Newest(OfChain(c), ps).value;
      (t.scope == n.scope && t.suite == n.suite) <==> Executable(x, n.scope, n.suite)
  {
    hide Executable, RecordedAll;
    NewestReported(x, s, ps, c);
    NewestIsGreatest(OfChain(c), ps);
    NewestIsGreatest(ConfigurableOf(x, c), ps);
    if Executable(x, Newest(OfChain(c), ps).value.scope, Newest(OfChain(c), ps).value.suite) {
      NewestConfigurable(x, ps, c);
    }
  }

  /** An environment that knows one suite. */
  function OneSuite(): Env<nat> {
    Env((_: Scope, suite: Suite) => if suite == 1 then Some(Descriptor(7, true)) else None, [], (_: Profile) => 0)
  }

  /** An input where they disagree: a newer profile with an unknown suite is reported under the scope of the
      older one. */
  lemma MixedStatus(s: Surface)
    requires Complete(s)
    ensures var x := OneSuite();
      var older := Profile(1, Scope(Bitcoin, 0), 1, 7, "set", 1, 2, 3);
      var newer := Profile(2, Scope(Bitcoin, 9), 2, 7, "set", 2, 2, 3);
      var t := RecordedAll(x, s, StableSort([newer, older]))[Bitcoin];
      t.profile == Some(newer) && t.scope == older.scope != newer.scope && t.suite == older.suite
  {
    hide RecordedAll, StableSort, Newest, BuildValidated;
    var x := OneSuite();
    var older := Profile(1, Scope(Bitcoin, 0), 1, 7, "set", 1, 2, 3);
    var newer := Profile(2, Scope(Bitcoin, 9), 2, 7, "set", 2, 2, 3);
    var ps := [newer, older];
    NewestReported(x, s, ps, Bitcoin);
    NewestOfTwo(OfChain(Bitcoin), newer, older);
    NewestOfTwo(ConfigurableOf(x, Bitcoin), newer, older);
  }

  lemma NewestOfTwo(kind: Profile -> bool, p: Profile, q: Profile)
    ensures Newest(kind, [p, q]) ==
      if kind(q) && (kind(p) ==> NotAfter(p, q)) then Some(q) else if kind(p) then Some(p) else None
  {
    hide NotAfter;
    assert [p, q][..1] == [p] && [p][..0] == [];
    assert Newest(kind, [p]) == if kind(p) then Some(p) else None;
  }

  /** When an executor is built: the exact condition. */
  lemma BuiltExactly<K>(x: Env<K>, p: Profile)
    ensures BuildValidated(x, p).Built? <==>
      && p.id != 0 && p.signerSet != "" && p.epoch != 0 && 1 <= p.threshold <= p.maxSigners
      && x.resolve(p.scope, p.suite) == Some(Descriptor(p.backend, true))
      && exists i :: FirstAt(x.factories, p.backend, i) && x.factories[i].build(p) == Built(x.keyOf(p))
    ensures BuildValidated(x, p).Built? ==> BuildValidated(x, p).key == x.keyOf(p)
  {
    hide FirstFactory;
    FirstFactoryExact(x.factories, p.backend);
  }

  /** A factory's answer; a built executor with another key is refused. */
  function Checked<K(==)>(b: Build<K>, key: K): Build<K> {
    match b
    case NotBuilt(_) => b
    case Built(k) => if k == key then b else NotBuilt("executor-key-mismatch")
  }

  /** Why an executor is not built, in this order; a factory may also refuse with a code of its own. */
  lemma RefusedExactly<K>(x: Env<K>, p: Profile)
    ensures var b := BuildValidated(x, p);
      var d := x.resolve(p.scope, p.suite);
      if p.id == 0 || p.signerSet == "" || p.epoch == 0 || p.threshold == 0 || p.threshold > p.maxSigners then
        b == NotBuilt("executor-profile-invalid")
      else if d.None? || d.value.backend != p.backend then b == NotBuilt("executor-profile-unsupported")
      else if !d.value.executable then b == NotBuilt("executor-suite-unavailable")
      else if forall f <- x.factories :: f.backend != p.backend then b == NotBuilt("executor-backend-unconfigured")
      else exists i :: FirstAt(x.factories, p.backend, i) && b == Checked(x.factories[i].build(p), x.keyOf(p))
  {
    hide FirstFactory;
    FirstFactoryExact(x.factories, p.backend);
  }

  /** The first factory for a backend stands at `i`. */
  predicate FirstAt<K>(factories: seq<Factory<K>>, backend: Backend, i: int) {
    && 0 <= i < |factories| && factories[i].backend == backend
    && forall j :: 0 <= j < i ==> factories[j].backend != backend
  }

  lemma {:induction false} FirstFactoryExact<K>(factories: seq<Factory<K>>, backend: Backend)
    ensures var f := FirstFactory(factories, backend);
      if f.None? then forall g <- factories :: g.backend != backend
      else exists i :: FirstAt(factories, backend, i) && factories[i] == f.value
    ensures forall i, j :: FirstAt(factories, backend, i) && FirstAt(factories, backend, j) ==> i == j
  {
    if factories != [] && factories[0].backend != backend {
      FirstFactoryExact(factories[1..], backend);
      if i :| FirstAt(factories[1..], backend, i) && factories[1..][i] == FirstFactory(factories, backend).value {
        assert FirstAt(factories, backend, i + 1) by {
          forall j | 0 <= j < i + 1 ensures factories[j].backend != backend {
            assert j > 0 ==> factories[1..][j - 1] == factories[j];
          }
        }
      }
      assert factories == [factories[0]] + factories[1..];
    } else if factories != [] {
      assert FirstAt(factories, backend, 0);
    }
  }

  // ---------------------------------------------------------------- the surface, in place

  class MultiChainWalletSurface<K(==)> {
    const env: Env<K>
    var chains: Surface

    constructor (env: Env<K>, chains: Surface)
      ensures this.env == env && this.chains == chains
    {
      this.env, this.chains := env, chains;
    }

    method Configure(scope: Scope, suite: Suite) returns (error: Option<ConfigurationError>)
      modifies this
      ensures var c := Configured(env, old(chains), scope, suite);
        && (c.Accepted? ==> error == None && chains == c.surface)
        && (c.Refused? ==> error == Some(c.error) && chains == old(chains))
    {
      var d := env.resolve(scope, suite);
      if d.None? {
        return Some(UnsupportedSigningSuite);
      }
      if !d.value.executable {
        return Some(SigningSuiteNotExecutable);
      }
      chains := chains[scope.chain := Status(scope, suite, false, None, d.value.backend, Unavailable, None)];
      error := None;
    }

    method RecordRegistered(p: Profile) returns (error: Option<ConfigurationError>)
      modifies this
      ensures var c := Configured(env, old(chains), p.scope, p.suite);
        && (c.Refused? ==> error == Some(c.error) && chains == old(chains))
        && (c.Accepted? ==>
          && error == None && p.scope.chain in c.surface
          && chains == c.surface[p.scope.chain :=
               Status(p.scope, p.suite, true, Some(p), c.surface[p.scope.chain].backend, Ready, None)])
    {
      error := Configure(p.scope, p.suite);
      if error.None? {
        var t := chains[p.scope.chain];
        chains := chains[p.scope.chain := Status(t.scope, t.suite, true, Some(p), t.backend, Ready, None)];
      }
    }

    method RecordFailed(p: Profile, code: Code)
      requires p.scope.chain in chains
      modifies this
      ensures var c := Configured(env, old(chains), p.scope, p.suite);
        var base := if c.Accepted? then c.surface else old(chains);
        chains == base[p.scope.chain := WithFailure(base[p.scope.chain], p, code)]
    {
      var _ := Configure(p.scope, p.suite);
      chains := chains[p.scope.chain := WithFailure(chains[p.scope.chain], p, code)];
    }

    /** One round of the loop: the executor's key if it was built, and the registration. */
    method Record(p: Profile) returns (key: Option<K>, registration: Registration)
      requires p.scope.chain in chains
      modifies this
      ensures chains == Recorded(env, old(chains), p) && registration == RegistrationOf(env, p)
      ensures key == var b := BuildValidated(env, p); if b.Built? then Some(b.key) else None
    {
      hide BuildValidated;
      var built := BuildValidated(env, p);
      if built.Built? {
        key := Some(built.key);
        var error := RecordRegistered(p);
        if error.None? {
          registration := Registration(p.id, p.scope, None);
        } else {
          RecordFailed(p, "executor-profile-unsupported");
          registration := Registration(p.id, p.scope, Some("executor-profile-unsupported"));
        }
      } else {
        RecordFailed(p, built.code);
        key, registration := None, Registration(p.id, p.scope, Some(built.code));
      }
    }

    /** `bootstrap_wallet_executors`: the keys registered with the wallet, and the report. */
    method Bootstrap(profiles: seq<Profile>) returns (registered: seq<K>, report: seq<Registration>)
      requires Complete(chains)
      modifies this
      ensures StableSortOf(StableSort(profiles), profiles)
      ensures chains == RecordedAll(env, old(chains), StableSort(profiles))
      ensures |report| == |StableSort(profiles)|
      ensures forall i :: 0 <= i < |report| ==> report[i] == RegistrationOf(env, StableSort(profiles)[i])
      ensures registered == KeysBuilt(env, StableSort(profiles))
    {
      StableSortSorts(profiles);
      hide BuildValidated, StableSort, StableSortOf, Recorded, RegistrationOf;
      var sorted := StableSort(profiles);
      registered, report := [], [];
      for i := 0 to |sorted|
        invariant Complete(old(chains)) && chains == RecordedAll(env, old(chains), sorted[..i]) && |report| == i
        invariant forall k :: 0 <= k < i ==> report[k] == RegistrationOf(env, sorted[k])
        invariant registered == KeysBuilt(env, sorted[..i])
      {
        var p := sorted[i];
        assert sorted[..i + 1][..i] == sorted[..i] && p in sorted;
        var key, registration := Record(p);
        if key.Some? {
          registered := registered + [key.value];
        }
        report := report + [registration];
      }
      assert sorted[..|sorted|] == sorted;
    }
  }
}
