/** The durable session claim log: an append-only, bounded, checksummed file that is loaded on open
    and fails closed.

    `Apply` is one event on the file and the (at most one) open store: an open, a claim, or the end of
    the process. Every write may reach the disk only in part; a crash in the middle of a write is a
    partial write followed by the end of the process. The theorems are about every list of events. */
module ClaimLog {
  import opened Bytes
  import opened Options
  import opened Suites

  const MAX_RETAINED_SESSION_IDS: nat := 4096
  const RECORD_BYTES: nat := 64

  /** One log format: version 2, or the read-only version 1 file. */
  datatype Format = Format(header: seq<byte>, domain: seq<byte>)

  const V2: Format :=
    Format(Ascii("CATOMICALS-CBMPC-CLAIMS-V2\0\0\0\0\0\0"), Ascii("catomicals.cb-mpc.session-claim.v2\0"))
  const V1: Format :=
    Format(Ascii("CATOMICALS-CBMPC-CLAIMS-V1\0\0\0\0\0\0"), Ascii("catomicals.cb-mpc.session-claim.v1\0"))

  datatype ClaimError = AlreadyClaimed | StoreFull | StoreBusy | CorruptStore | InvalidSession | FailedClosed | Io

  datatype Loaded = Claims(keys: set<Digest>) | Corrupt

  // ---------------------------------------------------------------- the file format

  predicate IsZero(id: Digest) {
    forall i :: 0 <= i < 32 ==> id[i] == 0
  }

  function RecordOf(sha256: Hash, f: Format, key: Digest): (r: seq<byte>)
    ensures |r| == RECORD_BYTES && r[..32] == key
  {
    key + sha256(f.domain + key)
  }

  /** Adds one record to the keys read so far. */
  function WithRecord(sha256: Hash, f: Format, before: Loaded, record: seq<byte>): (r: Loaded)
    requires |record| == RECORD_BYTES
    ensures r.Claims? ==> before.Claims? && |r.keys| == |before.keys| + 1
  {
    if before.Corrupt? || IsZero(record[..32])
       || record != RecordOf(sha256, f, record[..32]) || record[..32] in before.keys
    then Corrupt
    else Claims(before.keys + {record[..32]})
  }

  /** The keys of a list of records, or `Corrupt` at the first bad, zero or repeated one. */
  function Keys(sha256: Hash, f: Format, records: seq<byte>): (r: Loaded)
    ensures r.Claims? ==> |records| == 64 * |r.keys|
    decreases |records|
  {
    if records == [] then Claims({})
    else if |records| < RECORD_BYTES then Corrupt
    else
      WithRecord(sha256, f, Keys(sha256, f, records[..|records| - RECORD_BYTES]), records[|records| - RECORD_BYTES..])
  }

  /** `load_existing`, and `load_or_initialize` on a non-empty file. */
  function Load(sha256: Hash, f: Format, contents: seq<byte>): (r: Loaded) {
    if |contents| < 32 || contents[..32] != f.header || (|contents| - 32) % 64 != 0
       || |contents| > 32 + 64 * MAX_RETAINED_SESSION_IDS
    then Corrupt
    else Keys(sha256, f, contents[32..])
  }

  method LoadContents(sha256: Hash, f: Format, contents: seq<byte>) returns (r: Loaded)
    ensures r == Load(sha256, f, contents)
  {
    if |contents| < 32 || contents[..32] != f.header || (|contents| - 32) % 64 != 0
       || |contents| > 32 + 64 * MAX_RETAINED_SESSION_IDS
    {
      return Corrupt;
    }
    r := LoadRecords(sha256, f, contents[32..]);
  }

  /** The loading loop. */
  method LoadRecords(sha256: Hash, f: Format, records: seq<byte>) returns (r: Loaded)
    requires |records| % 64 == 0
    ensures r == Keys(sha256, f, records)
  {
    var claimed: set<Digest> := {};
    hide RecordOf, Keys, IsZero;
    NoRecords(sha256, f, records[..0]);
    var count := |records| / 64;
    for i := 0 to count
      invariant Keys(sha256, f, records[..64 * i]) == Claims(claimed)
    {
      var key: Digest := records[64 * i..64 * i + 32];
      NextRecord(sha256, f, records, 64 * i);
      if IsZero(key) || records[64 * i + 32..64 * i + 64] != sha256(f.domain + key) || key in claimed {
        return Corrupt;
      }
      claimed := claimed + {key};
    }
    assert records[..|records|] == records;
    return Claims(claimed);
  }

  lemma NoRecords(sha256: Hash, f: Format, records: seq<byte>)
    requires records == []
    ensures Keys(sha256, f, records) == Claims({})
  {}

  /** What reading the record at `position` decides. */
  lemma NextRecord(sha256: Hash, f: Format, records: seq<byte>, position: nat)
    requires position + RECORD_BYTES <= |records| && |records| % 64 == position % 64 == 0
    requires Keys(sha256, f, records[..position]).Claims?
    ensures var claimed := Keys(sha256, f, records[..position]).keys;
      var key := records[position..position + 32];
      if IsZero(key) || records[position + 32..position + 64] != sha256(f.domain + key) || key in claimed
      then Keys(sha256, f, records).Corrupt?
      else Keys(sha256, f, records[..position + RECORD_BYTES]) == Claims(claimed + {key})
  {
    hide RecordOf, Keys, IsZero;
    var record := records[position..position + RECORD_BYTES];
    Extend(sha256, f, records, position);
    RecordParts(sha256, f, record);
    assert record[..32] == records[position..position + 32] && record[32..] == records[position + 32..position + 64];
    if Keys(sha256, f, records[..position + RECORD_BYTES]).Corrupt? {
      CorruptPrefix(sha256, f, records, position + RECORD_BYTES);
    }
  }

  lemma Extend(sha256: Hash, f: Format, records: seq<byte>, position: nat)
    requires position + RECORD_BYTES <= |records|
    ensures Keys(sha256, f, records[..position + RECORD_BYTES]) ==
      WithRecord(sha256, f, Keys(sha256, f, records[..position]), records[position..position + RECORD_BYTES])
  {
    hide WithRecord;
    var longer := records[..position + RECORD_BYTES];
    assert longer[..position] == records[..position];
    assert longer[position..] == records[position..position + RECORD_BYTES];
  }

  lemma RecordParts(sha256: Hash, f: Format, record: seq<byte>)
    requires |record| == RECORD_BYTES
    ensures record == RecordOf(sha256, f, record[..32]) <==> record[32..] == sha256(f.domain + record[..32])
  {
    assert record == record[..32] + record[32..];
  }

  /** Once a record is bad, nothing appended later repairs the file. */
  lemma {:induction false} CorruptPrefix(sha256: Hash, f: Format, records: seq<byte>, n: nat)
    requires n <= |records| && (|records| - n) % 64 == 0 && Keys(sha256, f, records[..n]).Corrupt?
    ensures Keys(sha256, f, records).Corrupt?
    decreases |records|
  {
    if n == |records| {
      assert records[..n] == records;
    } else {
      var shorter := records[..|records| - RECORD_BYTES];
      assert shorter[..n] == records[..n];
      CorruptPrefix(sha256, f, shorter, n);
    }
  }

  /** Appending a record adds its key, unless the key is zero or already there. */
  lemma KeysAppend(sha256: Hash, f: Format, records: seq<byte>, key: Digest)
    ensures var before := Keys(sha256, f, records);
      Keys(sha256, f, records + RecordOf(sha256, f, key)) ==
        if before.Corrupt? || IsZero(key) || key in before.keys then Corrupt else Claims(before.keys + {key})
  {
    var record := RecordOf(sha256, f, key);
    var all := records + record;
    assert all[..|all| - RECORD_BYTES] == records && all[|all| - RECORD_BYTES..] == record;
  }

  // ---------------------------------------------------------------- the store

  type Uuid = s: seq<byte> | |s| == 16 witness seq(16, i => 0)

  /** Who may claim: the tuple hashed into a claim key. */
  datatype Namespace = Namespace(walletId: Uuid, profileId: Uuid, suite: SuiteId, backend: Backend)

  predicate IsNil(id: Uuid) {
    forall i :: 0 <= i < 16 ==> id[i] == 0
  }

  /** What `SessionClaimNamespace::new` accepts; its fields cannot be set otherwise. */
  predicate Constructible(n: Namespace) {
    !IsNil(n.walletId) && !IsNil(n.profileId) && n.backend == CbMpcThresholdEcdsa
  }

  method NewNamespace(walletId: Uuid, profileId: Uuid, suite: SuiteId, backend: Backend) returns (r: Option<Namespace>)
    ensures r.Some? <==>
      && (exists i :: 0 <= i < 16 && walletId[i] != 0) && (exists i :: 0 <= i < 16 && profileId[i] != 0)
      && backend == CbMpcThresholdEcdsa
    ensures r.Some? ==> r.value == Namespace(walletId, profileId, suite, backend) && Constructible(r.value)
  {
    if IsNil(walletId) || IsNil(profileId) || backend != CbMpcThresholdEcdsa {
      return None;
    }
    r := Some(Namespace(walletId, profileId, suite, backend));
  }

  function NamespaceBytes(n: Namespace): seq<byte> {
    n.walletId + (n.profileId + (SuiteName(n.suite) + BackendName(n.backend)))
  }

  function ClaimBytes(n: Namespace, session: Digest): seq<byte> {
    Ascii("catomicals.cb-mpc.session-namespace.v1\0") + (NamespaceBytes(n) + session)
  }

  function ClaimKey(sha256: Hash, n: Namespace, session: Digest): Digest {
    sha256(ClaimBytes(n, session))
  }

  /** A namespace is read back from its bytes, though its names carry no length. */
  lemma NamespaceSplit(m: Namespace, n: Namespace, s: seq<byte>, t: seq<byte>)
    requires Constructible(m) && Constructible(n) && NamespaceBytes(m) + s == NamespaceBytes(n) + t
    ensures m == n && s == t
  {
    hide SuiteName, BackendName, IsNil;
    var c, d := BackendName(m.backend) + s, BackendName(n.backend) + t;
    assert NamespaceBytes(m) + s == m.walletId + (m.profileId + (SuiteName(m.suite) + c));
    assert NamespaceBytes(n) + t == n.walletId + (n.profileId + (SuiteName(n.suite) + d));
    Split(m.walletId, m.profileId + (SuiteName(m.suite) + c), n.walletId, n.profileId + (SuiteName(n.suite) + d));
    Split(m.profileId, SuiteName(m.suite) + c, n.profileId, SuiteName(n.suite) + d);
    SuiteSplit(m.suite, n.suite, c, d);
    Split(BackendName(m.backend), s, BackendName(n.backend), t);
  }

  /** So a claim key stands for one namespace and session, for a hash that separates the two strings. */
  lemma KeyIdentifies(sha256: Hash, m: Namespace, n: Namespace, s: Digest, t: Digest)
    requires Constructible(m) && Constructible(n)
    requires sha256(ClaimBytes(m, s)) == sha256(ClaimBytes(n, t)) ==> ClaimBytes(m, s) == ClaimBytes(n, t)
    ensures ClaimKey(sha256, m, s) == ClaimKey(sha256, n, t) <==> m == n && s == t
  {
    hide Ascii, NamespaceBytes, Constructible;
    var domain := Ascii("catomicals.cb-mpc.session-namespace.v1\0");
    if ClaimBytes(m, s) == ClaimBytes(n, t) {
      Split(domain, NamespaceBytes(m) + s, domain, NamespaceBytes(n) + t);
      NamespaceSplit(m, n, s, t);
    }
  }

  datatype Instance = Instance(claimed: set<Digest>, failedClosed: bool)

  /** The file, and the store that holds its lock, if any. */
  datatype Store = Store(disk: seq<byte>, open: Option<Instance>)

  /** What of a write reaches the disk, and whether the write and the sync reported success. */
  datatype Write = Write(bytes: nat, success: bool)

  predicate Possible(w: Write, length: nat) {
    w.bytes <= length && (w.success ==> w.bytes == length)
  }

  datatype Event = Open(w: Write) | Claim(namespace: Namespace, session: Digest, w: Write) | Exit

  datatype Reply = Opened | ClaimOk | Refused(error: ClaimError) | Exited

  /** The environment: the hash and the version 1 file, which is never written. */
  datatype Context = Context(sha256: Hash, legacyFile: Option<seq<byte>>)

  function LegacySessions(c: Context): Loaded {
    if c.legacyFile.None? then Claims({}) else Load(c.sha256, V1, c.legacyFile.value)
  }

  function Apply(c: Context, s: Store, e: Event): (Store, Reply) {
    if e.Open? then OpenStore(c, s, e.w)
    else if e.Claim? then ClaimScoped(c, s, e.namespace, e.session, e.w)
    else (Store(s.disk, None), Exited)
  }

  function OpenStore(c: Context, s: Store, w: Write): (Store, Reply) {
    if s.open.Some? then (s, Refused(StoreBusy))
    else if s.disk == [] && !(Possible(w, 32) && w.success) then
      (Store(if w.bytes <= 32 then V2.header[..w.bytes] else [], None), Refused(Io))
    else if s.disk == [] then Admit(c, V2.header, Claims({}))
    else Admit(c, s.disk, Load(c.sha256, V2, s.disk))
  }

  /** The end of `open`: the version 1 sessions must load too. */
  function Admit(c: Context, disk: seq<byte>, loaded: Loaded): (Store, Reply) {
    if loaded.Corrupt? || LegacySessions(c).Corrupt? then (Store(disk, None), Refused(CorruptStore))
    else (Store(disk, Some(Instance(loaded.keys, false))), Opened)
  }

  function ClaimScoped(c: Context, s: Store, n: Namespace, session: Digest, w: Write): (Store, Reply) {
    if IsZero(session) then (s, Refused(InvalidSession))
    else if s.open.None? || s.open.value.failedClosed then (s, Refused(FailedClosed))
    else if (LegacySessions(c).Claims? && session in LegacySessions(c).keys)
            || ClaimKey(c.sha256, n, session) in s.open.value.claimed
    then (s, Refused(AlreadyClaimed))
    else if |s.open.value.claimed| >= MAX_RETAINED_SESSION_IDS then (s, Refused(StoreFull))
    else Append(c, s.disk, s.open.value.claimed, ClaimKey(c.sha256, n, session), w)
  }

  function Append(c: Context, disk: seq<byte>, claimed: set<Digest>, key: Digest, w: Write): (Store, Reply) {
    if Possible(w, RECORD_BYTES) && w.success then
      (Store(disk + RecordOf(c.sha256, V2, key), Some(Instance(claimed + {key}, false))), ClaimOk)
    else
      (Store(disk + (if w.bytes <= RECORD_BYTES then RecordOf(c.sha256, V2, key)[..w.bytes] else []),
             Some(Instance(claimed, true))), Refused(FailedClosed))
  }

  /** The source's open store: fields behind the mutex. */
  class ClaimState {
    const context: Context
    var file: seq<byte>
    var claimed: set<Digest>
    var failedClosed: bool

    ghost function View(): Store
      reads this
    {
      Store(file, Some(Instance(claimed, failedClosed)))
    }

    constructor (context: Context, file: seq<byte>, claimed: set<Digest>)
      ensures View() == Store(file, Some(Instance(claimed, false))) && this.context == context
    {
      this.context, this.file, this.claimed, failedClosed := context, file, claimed, false;
    }

    method Claim(n: Namespace, session: Digest, w: Write) returns (r: Reply)
      requires Possible(w, RECORD_BYTES)
      modifies this
      ensures (View(), r) == ClaimScoped(context, old(View()), n, session, w)
    {
      if IsZero(session) {
        return Refused(InvalidSession);
      }
      var key := ClaimKey(context.sha256, n, session);
      if failedClosed {
        return Refused(FailedClosed);
      }
      var legacy := LegacySessions(context);
      if (legacy.Claims? && session in legacy.keys) || key in claimed {
        return Refused(AlreadyClaimed);
      }
      if |claimed| >= MAX_RETAINED_SESSION_IDS {
        return Refused(StoreFull);
      }
      var record := RecordOf(context.sha256, V2, key);
      file := file + record[..w.bytes];
      if !w.success {
        failedClosed := true;
        return Refused(FailedClosed);
      }
      assert record[..RECORD_BYTES] == record;
      claimed := claimed + {key};
      return ClaimOk;
    }
  }

  method OpenClaims(c: Context, disk: seq<byte>, w: Write) returns (r: Reply, disk': seq<byte>, state: ClaimState?)
    requires Possible(w, 32)
    ensures state != null <==> r == Opened
    ensures state != null ==>
      fresh(state) && state.context == c && (state.View(), r) == OpenStore(c, Store(disk, None), w)
    ensures state == null ==> (Store(disk', None), r) == OpenStore(c, Store(disk, None), w)
  {
    state, disk' := null, disk;
    var loaded := Claims({});
    if disk == [] {
      disk' := V2.header[..w.bytes];
      if !w.success {
        return Refused(Io), disk', null;
      }
      assert V2.header[..32] == V2.header;
    } else {
      loaded := LoadContents(c.sha256, V2, disk);
    }
    if loaded.Corrupt? || LegacySessions(c).Corrupt? {
      return Refused(CorruptStore), disk', null;
    }
    state := new ClaimState(c, disk', loaded.keys);
    r := Opened;
  }

  // ---------------------------------------------------------------- every run

  function After(c: Context, s: Store, es: seq<Event>): Store {
    if es == [] then s else Apply(c, After(c, s, es[..|es| - 1]), es[|es| - 1]).0
  }

  function ReplyTo(c: Context, s: Store, es: seq<Event>, i: nat): Reply
    requires i < |es|
  {
    Apply(c, After(c, s, es[..i]), es[i]).1
  }

  function KeyOf(c: Context, e: Event): Digest
    requires e.Claim?
  {
    ClaimKey(c.sha256, e.namespace, e.session)
  }

  /** The keys whose claim was answered with success. */
  function Accepted(c: Context, s: Store, es: seq<Event>): set<Digest> {
    if es == [] then {}
    else Accepted(c, s, es[..|es| - 1]) + Granted(c, After(c, s, es[..|es| - 1]), es[|es| - 1])
  }

  function Granted(c: Context, s: Store, e: Event): set<Digest> {
    if e.Claim? && Apply(c, s, e).1 == ClaimOk then {KeyOf(c, e)} else {}
  }

  /** The open store agrees with the file, and neither has forgotten an accepted claim. */
  ghost predicate Remembers(c: Context, s: Store, accepted: set<Digest>) {
    && (s.disk == [] ==> accepted == {})
    && (Load(c.sha256, V2, s.disk).Claims? ==> accepted <= Load(c.sha256, V2, s.disk).keys)
    && (s.open.Some? ==>
      accepted <= s.open.value.claimed && (!s.open.value.failedClosed ==> InStep(c, s.disk, s.open.value.claimed)))
  }

  /** The file is the header and one record per claim in memory. */
  ghost predicate InStep(c: Context, disk: seq<byte>, claimed: set<Digest>) {
    && |disk| == 32 + 64 * |claimed| && disk[..32] == V2.header && |claimed| <= MAX_RETAINED_SESSION_IDS
    && (Load(c.sha256, V2, disk).Claims? ==> Load(c.sha256, V2, disk).keys == claimed)
  }

  /** Appending a whole record. */
  lemma LoadAppend(c: Context, disk: seq<byte>, claimed: set<Digest>, key: Digest)
    requires InStep(c, disk, claimed) && |claimed| < MAX_RETAINED_SESSION_IDS && key !in claimed
    ensures var before := Load(c.sha256, V2, disk);
      Load(c.sha256, V2, disk + RecordOf(c.sha256, V2, key)) ==
        if before.Corrupt? || IsZero(key) then Corrupt else Claims(claimed + {key})
    ensures InStep(c, disk + RecordOf(c.sha256, V2, key), claimed + {key})
  {
    hide Keys, Load, RecordOf, IsZero, Ascii;
    var record := RecordOf(c.sha256, V2, key);
    KeysAppend(c.sha256, V2, disk[32..], key);
    HeaderThen(disk, record);
    LoadWhole(c, disk, |claimed|);
    LoadWhole(c, disk + record, |claimed| + 1);
  }

  lemma HeaderThen(disk: seq<byte>, more: seq<byte>)
    requires |disk| >= 32
    ensures (disk + more)[32..] == disk[32..] + more && (disk + more)[..32] == disk[..32]
  {}

  lemma LoadWhole(c: Context, disk: seq<byte>, n: nat)
    requires |disk| == 32 + 64 * n && disk[..32] == V2.header && n <= MAX_RETAINED_SESSION_IDS
    ensures Load(c.sha256, V2, disk) == Keys(c.sha256, V2, disk[32..])
  {
    hide Keys, Ascii;
  }

  /** Appending part of a record makes the file unreadable. */
  lemma LoadTorn(c: Context, disk: seq<byte>, claimed: set<Digest>, part: seq<byte>)
    requires InStep(c, disk, claimed) && 0 < |part| < RECORD_BYTES
    ensures Load(c.sha256, V2, disk + part).Corrupt?
  {}

  lemma AppendRemembers(c: Context, s: Store, accepted: set<Digest>, key: Digest, w: Write)
    requires Remembers(c, s, accepted) && s.open.Some? && !s.open.value.failedClosed
    requires key !in s.open.value.claimed && |s.open.value.claimed| < MAX_RETAINED_SESSION_IDS
    ensures var (s', r) := Append(c, s.disk, s.open.value.claimed, key, w);
      Remembers(c, s', if r == ClaimOk then accepted + {key} else accepted)
  {
    hide Load, RecordOf, Ascii, IsZero;
    var claimed := s.open.value.claimed;
    var record := RecordOf(c.sha256, V2, key);
    LoadAppend(c, s.disk, claimed, key);
    if w.bytes == RECORD_BYTES {
      assert record[..w.bytes] == record;
    } else if 0 < w.bytes < RECORD_BYTES {
      LoadTorn(c, s.disk, claimed, record[..w.bytes]);
    } else {
      assert record[..0] == [] && s.disk + [] == s.disk;
    }
  }

  lemma OpenRemembers(c: Context, s: Store, accepted: set<Digest>, w: Write)
    requires Remembers(c, s, accepted)
    ensures Remembers(c, OpenStore(c, s, w).0, accepted)
  {
    hide Keys, RecordOf, IsZero;
    assert V2.header[32..] == [];
    NoRecords(c.sha256, V2, V2.header[32..]);
    assert V2.header[..32] == V2.header;
  }

  lemma StepRemembers(c: Context, s: Store, accepted: set<Digest>, e: Event)
    requires Remembers(c, s, accepted)
    ensures Remembers(c, Apply(c, s, e).0, accepted + Granted(c, s, e)) && Granted(c, s, e) !! accepted
  {
    hide Load, RecordOf, Ascii, IsZero, Append, InStep, OpenStore, ClaimScoped;
    if e.Open? {
      OpenRemembers(c, s, accepted, e.w);
    } else if e.Claim? {
      ClaimRemembers(c, s, accepted, e.namespace, e.session, e.w);
    }
    assert accepted + {} == accepted;
  }

  lemma ClaimRemembers(c: Context, s: Store, accepted: set<Digest>, n: Namespace, session: Digest, w: Write)
    requires Remembers(c, s, accepted)
    ensures var (s', r) := ClaimScoped(c, s, n, session, w);
      var key := ClaimKey(c.sha256, n, session);
      Remembers(c, s', if r == ClaimOk then accepted + {key} else accepted) && (r == ClaimOk ==> key !in accepted)
  {
    hide Load, RecordOf, Ascii, IsZero, Append, InStep, LegacySessions, ClaimKey;
    var key := ClaimKey(c.sha256, n, session);
    if s.open.Some? && !s.open.value.failedClosed && key !in s.open.value.claimed
       && |s.open.value.claimed| < MAX_RETAINED_SESSION_IDS
    {
      AppendRemembers(c, s, accepted, key, w);
    }
  }

  /** After any run the file, if it loads at all, and the open store hold every accepted claim. */
  lemma {:induction false} NothingForgotten(c: Context, disk: seq<byte>, es: seq<Event>)
    ensures Remembers(c, After(c, Store(disk, None), es), Accepted(c, Store(disk, None), es))
  {
    hide Remembers, Apply, Granted;
    var s := Store(disk, None);
    if es == [] {
      NothingYet(c, s);
    } else {
      var n := |es| - 1;
      NothingForgotten(c, disk, es[..n]);
      StepRemembers(c, After(c, s, es[..n]), Accepted(c, s, es[..n]), es[n]);
    }
  }

  lemma NothingYet(c: Context, s: Store)
    requires s.open.None?
    ensures Remembers(c, s, {})
  {}

  /** A namespace and session are claimed successfully at most once over any run of opens, claims,
      partial writes and restarts, whatever the file held at first. */
  lemma {:induction false} ClaimedAtMostOnce(c: Context, disk: seq<byte>, es: seq<Event>, i: nat, j: nat)
    requires i < j < |es| && es[i].Claim? && es[j].Claim?
    ensures ReplyTo(c, Store(disk, None), es, i) == ClaimOk && ReplyTo(c, Store(disk, None), es, j) == ClaimOk ==>
      KeyOf(c, es[i]) != KeyOf(c, es[j]) && (es[i].namespace != es[j].namespace || es[i].session != es[j].session)
  {
    hide Remembers, Apply, KeyOf;
    var s := Store(disk, None);
    if ReplyTo(c, s, es, i) == ClaimOk && ReplyTo(c, s, es, j) == ClaimOk {
      NothingForgotten(c, disk, es[..j]);
      StepRemembers(c, After(c, s, es[..j]), Accepted(c, s, es[..j]), es[j]);
      assert KeyOf(c, es[i]) in Accepted(c, s, es[..j]) by {
        assert es[..j][..i] == es[..i];
        AcceptedHolds(c, s, es[..j], i);
      }
      KeyDecides(c, es[i], es[j]);
    }
  }

  lemma KeyDecides(c: Context, d: Event, e: Event)
    requires d.Claim? && e.Claim? && KeyOf(c, d) != KeyOf(c, e)
    ensures d.namespace != e.namespace || d.session != e.session
  {}

  lemma {:induction false} AcceptedHolds(c: Context, s: Store, es: seq<Event>, i: nat)
    requires i < |es| && es[i].Claim? && ReplyTo(c, s, es, i) == ClaimOk
    ensures KeyOf(c, es[i]) in Accepted(c, s, es)
  {
    hide Apply, KeyOf, After;
    if i < |es| - 1 {
      var shorter := es[..|es| - 1];
      assert shorter[..i] == es[..i];
      AcceptedHolds(c, s, shorter, i);
    }
  }

  /** Only a fresh session is accepted: not the zero one, not one of the version 1 log, and never more than
      the store can retain. */
  lemma {:induction false} AcceptedOnlyFresh(c: Context, disk: seq<byte>, es: seq<Event>, i: nat)
    requires i < |es| && es[i].Claim?
    ensures ReplyTo(c, Store(disk, None), es, i) == ClaimOk ==>
      && (exists k :: 0 <= k < 32 && es[i].session[k] != 0)
      && |Accepted(c, Store(disk, None), es[..i])| < MAX_RETAINED_SESSION_IDS
      && LegacySessions(c).Claims? && es[i].session !in LegacySessions(c).keys
  {
    hide Load, Ascii, ClaimKey;
    if ReplyTo(c, Store(disk, None), es, i) == ClaimOk {
      NothingForgotten(c, disk, es[..i]);
      LegacyLoaded(c, disk, es[..i]);
      Fewer(Accepted(c, Store(disk, None), es[..i]), After(c, Store(disk, None), es[..i]).open.value.claimed);
    }
  }

  /** A store is open only if the version 1 log loaded. */
  lemma {:induction false} LegacyLoaded(c: Context, disk: seq<byte>, es: seq<Event>)
    ensures After(c, Store(disk, None), es).open.Some? ==> LegacySessions(c).Claims?
  {
    hide IsZero, Load, Ascii, ClaimKey, LegacySessions;
    if es != [] {
      LegacyLoaded(c, disk, es[..|es| - 1]);
    }
  }

  lemma {:induction false} Fewer<T>(a: set<T>, b: set<T>)
    requires a <= b
    ensures |a| <= |b|
  {
    if a != {} {
      var x :| x in a;
      Fewer(a - {x}, b - {x});
    }
  }

  /** A store that failed closed accepts nothing until the process ends, even where the file is whole. */
  lemma {:induction false} FailedClosedStays(c: Context, s: Store, es: seq<Event>)
    requires s.open.Some? && s.open.value.failedClosed
    requires forall i :: 0 <= i < |es| ==> !es[i].Exit?
    ensures After(c, s, es) == s
    ensures forall i :: 0 <= i < |es| ==> ReplyTo(c, s, es, i) != ClaimOk && ReplyTo(c, s, es, i) != Opened
  {
    hide IsZero, Load, Ascii, ClaimKey, Append;
    if es != [] {
      var shorter := es[..|es| - 1];
      FailedClosedStays(c, s, shorter);
      forall i | 0 <= i < |shorter| ensures ReplyTo(c, s, es, i) == ReplyTo(c, s, shorter, i) {
        assert shorter[..i] == es[..i];
      }
    }
  }

  // ---------------------------------------------------------------- torn writes

  /** The file is unreadable and nothing open can append to it. */
  predicate Dead(c: Context, s: Store) {
    && s.disk != [] && Load(c.sha256, V2, s.disk).Corrupt?
    && (s.open.None? || s.open.value.failedClosed)
  }

  /** The event writes a proper, non-empty part of a header or record. */
  predicate Torn(c: Context, s: Store, e: Event) {
    match e
    case Open(w) => s.open.None? && s.disk == [] && 0 < w.bytes < 32
    case Claim(_, _, w) => 0 < w.bytes < RECORD_BYTES && |Apply(c, s, e).0.disk| == |s.disk| + w.bytes
    case Exit => false
  }

  lemma TornKills(c: Context, s: Store, accepted: set<Digest>, e: Event)
    requires Remembers(c, s, accepted) && Torn(c, s, e)
    ensures Dead(c, Apply(c, s, e).0)
  {
    hide Keys, RecordOf, IsZero, Ascii;
    if e.Claim? {
      LoadTorn(c, s.disk, s.open.value.claimed, RecordOf(c.sha256, V2, KeyOf(c, e))[..e.w.bytes]);
    }
  }

  lemma DeadStays(c: Context, s: Store, e: Event)
    requires Dead(c, s)
    ensures var (s', r) := Apply(c, s, e);
      Dead(c, s') && s'.disk == s.disk && r != ClaimOk && r != Opened
  {
    hide Load, IsZero, Ascii;
  }

  /** A torn header or record is final: from then on no open and no claim succeeds, ever. */
  lemma {:induction false} TornIsFinal(c: Context, disk: seq<byte>, es: seq<Event>, i: nat, j: nat)
    requires i < j < |es| && Torn(c, After(c, Store(disk, None), es[..i]), es[i])
    ensures Dead(c, After(c, Store(disk, None), es[..j]))
    ensures ReplyTo(c, Store(disk, None), es, j) != ClaimOk && ReplyTo(c, Store(disk, None), es, j) != Opened
  {
    hide Remembers, Apply, Torn, Dead;
    var s := Store(disk, None);
    var before := es[..j - 1];
    assert es[..j][..j - 1] == before;
    if i == j - 1 {
      NothingForgotten(c, disk, before);
      TornKills(c, After(c, s, before), Accepted(c, s, before), es[i]);
    } else {
      TornIsFinal(c, disk, es, i, j - 1);
      DeadStays(c, After(c, s, before), es[j - 1]);
    }
    DeadStays(c, After(c, s, es[..j]), es[j]);
  }

  // ---------------------------------------------------------------- runs without torn writes

  predicate Untorn(c: Context, e: Event) {
    match e
    case Open(w) => w.bytes == 0 || w.bytes == 32
    case Claim(_, _, w) => (w.bytes == 0 || w.bytes == RECORD_BYTES) && !IsZero(KeyOf(c, e))
    case Exit => true
  }

  /** The file, when not empty, loads; and an open store holds exactly what it would load. */
  ghost predicate Mirrors(c: Context, s: Store) {
    && (s.disk != [] ==> Load(c.sha256, V2, s.disk).Claims? && |s.disk| <= 32 + 64 * MAX_RETAINED_SESSION_IDS)
    && (s.open.Some? ==> s.disk != [] && (!s.open.value.failedClosed ==> InStep(c, s.disk, s.open.value.claimed)))
  }

  lemma StepMirrors(c: Context, s: Store, e: Event)
    requires Mirrors(c, s) && Untorn(c, e)
    ensures Mirrors(c, Apply(c, s, e).0)
  {
    hide Keys, RecordOf, IsZero, Ascii;
    assert V2.header[32..] == [] && V2.header[..32] == V2.header;
    NoRecords(c.sha256, V2, V2.header[32..]);
    if e.Claim? && s.open.Some? && !s.open.value.failedClosed && KeyOf(c, e) !in s.open.value.claimed
       && |s.open.value.claimed| < MAX_RETAINED_SESSION_IDS {
      LoadAppend(c, s.disk, s.open.value.claimed, KeyOf(c, e));
      var record := RecordOf(c.sha256, V2, KeyOf(c, e));
      assert record[..0] == [] && record[..RECORD_BYTES] == record && s.disk + [] == s.disk;
    }
  }

  /** While no write is torn and no key is zero, the file always reloads to the claims in memory. */
  lemma {:induction false} CleanLog(c: Context, es: seq<Event>)
    requires forall i :: 0 <= i < |es| ==> Untorn(c, es[i])
    ensures Mirrors(c, After(c, Store([], None), es))
  {
    hide Mirrors, Apply, Untorn;
    if es == [] {
      EmptyMirrors(c);
    } else {
      CleanLog(c, es[..|es| - 1]);
      StepMirrors(c, After(c, Store([], None), es[..|es| - 1]), es[|es| - 1]);
    }
  }

  lemma EmptyMirrors(c: Context)
    ensures Mirrors(c, Store([], None))
  {}

  // ---------------------------------------------------------------- fresh sessions get through

  /** The keys of all claims made in a run, however they were answered. */
  function Attempted(c: Context, es: seq<Event>): set<Digest> {
    if es == [] then {}
    else Attempted(c, es[..|es| - 1]) + (if es[|es| - 1].Claim? then {KeyOf(c, es[|es| - 1])} else {})
  }

  /** The keys the file held at first. */
  function Initially(c: Context, disk: seq<byte>): set<Digest> {
    var loaded := Load(c.sha256, V2, disk);
    if loaded.Claims? then loaded.keys else {}
  }

  /** Neither the file nor the open store holds a key from elsewhere. */
  predicate NoStrangers(c: Context, s: Store, known: set<Digest>) {
    Initially(c, s.disk) <= known && (s.open.Some? ==> s.open.value.claimed <= known)
  }

  lemma StepNoStrangers(c: Context, s: Store, accepted: set<Digest>, known: set<Digest>, e: Event)
    requires Remembers(c, s, accepted) && NoStrangers(c, s, known)
    ensures NoStrangers(c, Apply(c, s, e).0, known + if e.Claim? then {KeyOf(c, e)} else {})
  {
    hide Keys, Load, RecordOf, IsZero, Ascii, LegacySessions, ClaimKey;
    if e.Open? {
      HeadersEmpty(c, e.w);
    } else if e.Claim? {
      var key := KeyOf(c, e);
      if s.open.Some? && !s.open.value.failedClosed && key !in s.open.value.claimed
         && |s.open.value.claimed| < MAX_RETAINED_SESSION_IDS
      {
        var record := RecordOf(c.sha256, V2, key);
        LoadAppend(c, s.disk, s.open.value.claimed, key);
        assert record[..0] == [] && record[..RECORD_BYTES] == record && s.disk + [] == s.disk;
        if 0 < e.w.bytes < RECORD_BYTES {
          LoadTorn(c, s.disk, s.open.value.claimed, record[..e.w.bytes]);
        }
      }
    }
  }

  /** A new file holds no key, whether or not its header was written whole. */
  lemma HeadersEmpty(c: Context, w: Write)
    ensures w.bytes <= 32 ==> Initially(c, V2.header[..w.bytes]) == {}
    ensures Initially(c, V2.header) == {} && Initially(c, []) == {}
  {
    hide Ascii;
    assert V2.header[..32] == V2.header && V2.header[32..] == [];
    NoRecords(c.sha256, V2, V2.header[32..]);
  }

  lemma {:induction false} RunNoStrangers(c: Context, disk: seq<byte>, es: seq<Event>)
    ensures NoStrangers(c, After(c, Store(disk, None), es), Initially(c, disk) + Attempted(c, es))
  {
    hide Remembers, Apply, Load, KeyOf;
    if es != [] {
      var n := |es| - 1;
      RunNoStrangers(c, disk, es[..n]);
      NothingForgotten(c, disk, es[..n]);
      StepNoStrangers(c, After(c, Store(disk, None), es[..n]), Accepted(c, Store(disk, None), es[..n]),
                      Initially(c, disk) + Attempted(c, es[..n]), es[n]);
    }
  }

  /** On every run: a session that is not zero, not in the version 1 log and was neither in the file at first
      nor claimed since is accepted by a healthy store with room, once its record is written. */
  lemma FreshSessionAccepted(c: Context, disk: seq<byte>, es: seq<Event>, n: Namespace, session: Digest, w: Write)
    ensures var s := After(c, Store(disk, None), es);
      var known := Initially(c, disk) + Attempted(c, es);
      && s.open.Some? && !s.open.value.failedClosed && (exists k :: 0 <= k < 32 && session[k] != 0)
      && LegacySessions(c).Claims? && session !in LegacySessions(c).keys
      && ClaimKey(c.sha256, n, session) !in known && |known| < MAX_RETAINED_SESSION_IDS
      && w == Write(RECORD_BYTES, true)
      ==>
        && Apply(c, s, Claim(n, session, w)).1 == ClaimOk
        && Apply(c, s, Claim(n, session, w)).0.disk ==
             s.disk + ClaimKey(c.sha256, n, session) + c.sha256(V2.domain + ClaimKey(c.sha256, n, session))
  {
    hide Load, Ascii, ClaimKey;
    var s := After(c, Store(disk, None), es);
    RunNoStrangers(c, disk, es);
    if s.open.Some? {
      var known := Initially(c, disk) + Attempted(c, es);
      if s.open.value.claimed <= known { Fewer(s.open.value.claimed, known); }
    }
  }
}
