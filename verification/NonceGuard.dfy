/** Write-once files: threshold nonces and operations that are used at most once, across crashes.

    A write-once file is created exclusively, written and synchronised; any of that may fail and leave part
    of it. A restart forgets the provider's memory and may lose or shorten every file whose write did not
    report success. */
module NonceGuard {
  import opened Bytes

  type Point = s: seq<byte> | |s| == 33 witness seq(33, i => 0)

  datatype Reservation = Reservation(
    session: Digest, participant: u16, fingerprint: Digest, hiding: Point, binding: Point)

  /** The files of one claim directory, by what their name is made of. */
  datatype Path = Reserved(fingerprint: Digest) | Consumed(fingerprint: Digest) | Operation(digest: Digest)

  datatype File = File(bytes: seq<byte>, durable: bool)

  /** How a write goes: whether the file is created, how much of it is written, whether all succeeded. */
  datatype Write = Write(created: bool, bytes: nat, success: bool)

  datatype Error =
    AlreadyExists | Unavailable | Missing | RecordInvalid | AlreadyPending | NotReserved | PackageRejected

  datatype Answer = Done | Refused(error: Error)

  /** `pending` is the provider's memory; `written` lists the files whose write reported success, `shares`
      the fingerprints for which a signature share was made. */
  datatype Node = Node(
    files: map<Path, File>, pending: map<Digest, Reservation>, written: seq<Path>, shares: seq<Digest>)

  /** An operation to claim once: the protocol's tag, the profile key and what is signed. */
  datatype Claim = Claim(tag: seq<byte>, profileKey: Digest, session: Digest, separator: Vec<byte>, binding: Digest)

  datatype Step =
    | Reserve(reservation: Reservation, w: Write)
    | Sign(session: Digest, packageOk: bool, transcript: Digest, w: Write)
    | ClaimOperation(claim: Claim, w: Write)
    | Restart(kept: map<Path, nat>)

  /** The hash and the two domain prefixes. */
  datatype Suite = Suite(sha256: Hash, recordDomain: seq<byte>, operationDomain: seq<byte>)

  // ---------------------------------------------------------------- operations

  function OnceWritten(files: map<Path, File>, p: Path, bytes: seq<byte>, w: Write): (map<Path, File>, Answer) {
    if p in files then (files, Refused(AlreadyExists))
    else if w.success then (files[p := File(bytes, true)], Done)
    else if !w.created then (files, Refused(Unavailable))
    else (files[p := File(if w.bytes <= |bytes| then bytes[..w.bytes] else bytes, false)], Refused(Unavailable))
  }

  function RecordBytes(x: Suite, r: Reservation): seq<byte> {
    x.recordDomain + (r.session + (BigEndian(r.participant, 2) + (r.fingerprint + (r.hiding + r.binding))))
  }

  function RecordDigest(x: Suite, r: Reservation): Digest {
    x.sha256(RecordBytes(x, r))
  }

  /** The guard's `consume`. */
  function Consume(x: Suite, files: map<Path, File>, r: Reservation, transcript: Digest,
                   w: Write): (map<Path, File>, Answer) {
    if Reserved(r.fingerprint) !in files then (files, Refused(Missing))
    else if files[Reserved(r.fingerprint)].bytes != RecordDigest(x, r) then (files, Refused(RecordInvalid))
    else OnceWritten(files, Consumed(r.fingerprint), RecordDigest(x, r) + transcript, w)
  }

  function ClaimBytes(x: Suite, c: Claim): seq<byte> {
    x.operationDomain + (c.tag + (c.profileKey + (c.session +
    (BigEndian(|c.separator|, 8) + (c.separator + c.binding)))))
  }

  function ClaimPath(x: Suite, c: Claim): Path {
    Operation(x.sha256(ClaimBytes(x, c)))
  }

  function Logged(written: seq<Path>, p: Path, a: Answer): seq<Path> {
    if a == Done then written + [p] else written
  }

  function ReserveStep(x: Suite, n: Node, r: Reservation, w: Write): (Node, Answer) {
    if r.session in n.pending then (n, Refused(AlreadyPending))
    else
      var (files, a) := OnceWritten(n.files, Reserved(r.fingerprint), RecordDigest(x, r), w);
      (Node(files, if a == Done then n.pending[r.session := r] else n.pending,
            Logged(n.written, Reserved(r.fingerprint), a), n.shares), a)
  }

  /** The nonces leave memory first; `packageOk` stands for the checks before `consume`. */
  function SignStep(x: Suite, n: Node, session: Digest, packageOk: bool, transcript: Digest, w: Write): (Node, Answer) {
    if session !in n.pending then (n, Refused(NotReserved))
    else if !packageOk then (Node(n.files, n.pending - {session}, n.written, n.shares), Refused(PackageRejected))
    else
      var r := n.pending[session];
      var (files, a) := Consume(x, n.files, r, transcript, w);
      (Node(files, n.pending - {session}, Logged(n.written, Consumed(r.fingerprint), a),
            if a == Done then n.shares + [r.fingerprint] else n.shares), a)
  }

  function ClaimStep(x: Suite, n: Node, c: Claim, w: Write): (Node, Answer) {
    var (files, a) := OnceWritten(n.files, ClaimPath(x, c), x.sha256(ClaimBytes(x, c)), w);
    (Node(files, n.pending, Logged(n.written, ClaimPath(x, c), a), n.shares), a)
  }

  function Survivor(f: File, kept: nat): File {
    if f.durable || kept > |f.bytes| then f else File(f.bytes[..kept], false)
  }

  function Survivors(files: map<Path, File>, kept: map<Path, nat>): map<Path, File> {
    map p | p in files && (files[p].durable || p in kept) :: Survivor(files[p], if p in kept then kept[p] else 0)
  }

  function Next(x: Suite, n: Node, s: Step): (Node, Answer) {
    match s
    case Reserve(r, w) => ReserveStep(x, n, r, w)
    case Sign(session, ok, transcript, w) => SignStep(x, n, session, ok, transcript, w)
    case ClaimOperation(c, w) => ClaimStep(x, n, c, w)
    case Restart(kept) => (Node(Survivors(n.files, kept), map[], n.written, n.shares), Done)
  }

  function After(x: Suite, n: Node, steps: seq<Step>): Node {
    if steps == [] then n else Next(x, After(x, n, steps[..|steps| - 1]), steps[|steps| - 1]).0
  }

  /** A provider that has just started, over whatever directory it finds. */
  function Initial(files: map<Path, File>): Node {
    Node(files, map[], [], [])
  }

  // ---------------------------------------------------------------- the provider, in place

  class Directory {
    var files: map<Path, File>

    method WriteOnce(p: Path, bytes: seq<byte>, w: Write) returns (a: Answer)
      modifies this
      ensures (files, a) == OnceWritten(old(files), p, bytes, w)
    {
      if p in files {
        return Refused(AlreadyExists);
      }
      if w.success {
        files := files[p := File(bytes, true)];
        return Done;
      }
      if w.created {
        files := files[p := File(if w.bytes <= |bytes| then bytes[..w.bytes] else bytes, false)];
      }
      return Refused(Unavailable);
    }
  }

  class ShareProvider {
    const suite: Suite
    const directory: Directory
    var pending: map<Digest, Reservation>

    constructor (suite: Suite, directory: Directory)
      ensures this.suite == suite && this.directory == directory && pending == map[]
    {
      this.suite, this.directory, pending := suite, directory, map[];
    }

    ghost function View(): Node
      reads this, directory
    {
      Node(directory.files, pending, [], [])
    }

    method Reserve(r: Reservation, w: Write) returns (a: Answer)
      modifies this, directory
      ensures var (n, answer) := ReserveStep(suite, old(View()), r, w);
        a == answer && pending == n.pending && directory.files == n.files
    {
      if r.session in pending {
        return Refused(AlreadyPending);
      }
      a := directory.WriteOnce(Reserved(r.fingerprint), RecordDigest(suite, r), w);
      if a == Done {
        pending := pending[r.session := r];
      }
    }

    /** Whatever the answer, the session's nonces are gone from memory. */
    method Sign(session: Digest, packageOk: bool, transcript: Digest, w: Write) returns (a: Answer)
      modifies this, directory
      ensures pending == old(pending) - {session}
      ensures a == SignStep(suite, old(View()), session, packageOk, transcript, w).1
      ensures directory.files == SignStep(suite, old(View()), session, packageOk, transcript, w).0.files
    {
      if session !in pending {
        assert pending - {session} == pending;
        return Refused(NotReserved);
      }
      var r := pending[session];
      pending := pending - {session};
      if !packageOk {
        return Refused(PackageRejected);
      }
      if Reserved(r.fingerprint) !in directory.files {
        return Refused(Missing);
      }
      if directory.files[Reserved(r.fingerprint)].bytes != RecordDigest(suite, r) {
        return Refused(RecordInvalid);
      }
      a := directory.WriteOnce(Consumed(r.fingerprint), RecordDigest(suite, r) + transcript, w);
    }
  }

  // ---------------------------------------------------------------- every run

  predicate Settled(files: map<Path, File>, p: Path) {
    p in files && files[p].durable
  }

  /** Every successful write is on disk for good; every share has its consumption record; every nonce in
      memory has its reservation record, whole. */
  ghost predicate Sound(x: Suite, n: Node) {
    && (forall p <- n.written :: Settled(n.files, p))
    && Distinct(n.written) && Distinct(n.shares)
    && (forall f <- n.shares :: Consumed(f) in n.written)
    && (forall s <- n.pending :: n.pending[s].session == s && ReservedFor(x, n, n.pending[s]))
  }

  predicate ReservedFor(x: Suite, n: Node, r: Reservation) {
    && Reserved(r.fingerprint) in n.written && Reserved(r.fingerprint) in n.files
    && n.files[Reserved(r.fingerprint)].bytes == RecordDigest(x, r)
  }

  /** Files already there, if durable, stay as they are. */
  predicate Keeps(before: map<Path, File>, after: map<Path, File>) {
    forall p <- before :: before[p].durable ==> p in after && after[p] == before[p]
  }

  lemma WriteKeeps(files: map<Path, File>, p: Path, bytes: seq<byte>, w: Write)
    ensures var (after, a) := OnceWritten(files, p, bytes, w);
      Keeps(files, after) && (a == Done ==> p !in files && Settled(after, p) && after[p].bytes == bytes)
  {}

  /** One write-once file more: all but the new share and the new nonce is kept. */
  lemma Extended(x: Suite, n: Node, p: Path, bytes: seq<byte>, w: Write)
    requires Sound(x, n)
    ensures var (files, a) := OnceWritten(n.files, p, bytes, w);
      Sound(x, Node(files, n.pending, Logged(n.written, p, a), n.shares)) && (a == Done ==> p !in n.written)
  {
    hide RecordDigest, OnceWritten;
    WriteKeeps(n.files, p, bytes, w);
    var (files, a) := OnceWritten(n.files, p, bytes, w);
    forall q <- n.written ensures Settled(files, q) && (a == Done ==> q != p) { assert Settled(n.files, q); }
    forall s <- n.pending
      ensures ReservedFor(x, Node(files, n.pending, Logged(n.written, p, a), n.shares), n.pending[s])
    {
      assert Settled(n.files, Reserved(n.pending[s].fingerprint));
    }
    if a == Done {
      assert forall i | 0 <= i < |n.written| :: n.written[i] in n.written && n.written[i] != p;
    }
  }

  lemma Forgotten(x: Suite, n: Node, session: Digest)
    requires Sound(x, n)
    ensures Sound(x, Node(n.files, n.pending - {session}, n.written, n.shares))
  {
    hide RecordDigest;
  }

  lemma Shared(x: Suite, n: Node, f: Digest)
    requires Sound(x, n) && Consumed(f) in n.written && f !in n.shares
    ensures Sound(x, Node(n.files, n.pending, n.written, n.shares + [f]))
  {
    hide RecordDigest;
  }

  lemma ShareRecorded(x: Suite, n: Node, f: Digest)
    requires Sound(x, n) && Consumed(f) !in n.written
    ensures f !in n.shares
  {
    hide RecordDigest;
  }

  lemma SignSound(x: Suite, n: Node, session: Digest, ok: bool, transcript: Digest, w: Write)
    requires Sound(x, n)
    ensures Sound(x, SignStep(x, n, session, ok, transcript, w).0)
  {
    hide RecordDigest, OnceWritten, Sound;
    Forgotten(x, n, session);
    if session in n.pending && ok {
      var r := n.pending[session];
      var forgot := Node(n.files, n.pending - {session}, n.written, n.shares);
      var (files, a) := OnceWritten(n.files, Consumed(r.fingerprint), RecordDigest(x, r) + transcript, w);
      Extended(x, forgot, Consumed(r.fingerprint), RecordDigest(x, r) + transcript, w);
      if a == Done {
        ShareRecorded(x, forgot, r.fingerprint);
        Shared(x, Node(files, forgot.pending, n.written + [Consumed(r.fingerprint)], n.shares), r.fingerprint);
      }
    }
  }

  lemma StepSound(x: Suite, n: Node, s: Step)
    requires Sound(x, n)
    ensures Sound(x, Next(x, n, s).0)
  {
    hide RecordDigest, ClaimPath, ClaimBytes, OnceWritten, SignStep;
    match s
    case Reserve(r, w) =>
      Extended(x, n, Reserved(r.fingerprint), RecordDigest(x, r), w);
      WriteKeeps(n.files, Reserved(r.fingerprint), RecordDigest(x, r), w);
    case Sign(session, ok, transcript, w) =>
      SignSound(x, n, session, ok, transcript, w);
    case ClaimOperation(c, w) =>
      Extended(x, n, ClaimPath(x, c), x.sha256(ClaimBytes(x, c)), w);
    case Restart(kept) =>
  }

  lemma StepKeeps(x: Suite, n: Node, s: Step)
    ensures Keeps(n.files, Next(x, n, s).0.files) && n.written <= Next(x, n, s).0.written
  {
    hide RecordDigest, ClaimPath, ClaimBytes;
  }

  lemma {:induction false} RunSound(x: Suite, files: map<Path, File>, steps: seq<Step>)
    ensures Sound(x, After(x, Initial(files), steps))
  {
    hide Sound, Next;
    if steps == [] {
      InitialSound(x, files);
    } else {
      RunSound(x, files, steps[..|steps| - 1]);
      StepSound(x, After(x, Initial(files), steps[..|steps| - 1]), steps[|steps| - 1]);
    }
  }

  lemma InitialSound(x: Suite, files: map<Path, File>)
    ensures Sound(x, Initial(files))
  {}

  /** Over any run of reservations, signings, torn files and restarts, from any directory: each nonce
      fingerprint gives at most one share, and each file name is written successfully at most once, which
      covers reservations, consumptions and operation claims. */
  lemma UsedAtMostOnce(x: Suite, files: map<Path, File>, steps: seq<Step>)
    ensures var n := After(x, Initial(files), steps);
      && Distinct(n.shares) && Distinct(n.written)
      && (forall f <- n.shares :: Consumed(f) in n.written && Consumed(f) in n.files)
  {
    RunSound(x, files, steps);
  }

  /** The nonces whose signing was answered with success, in order. */
  function Signed(x: Suite, files: map<Path, File>, steps: seq<Step>): seq<Digest> {
    if steps == [] then []
    else
      var before, last := steps[..|steps| - 1], steps[|steps| - 1];
      var n := After(x, Initial(files), before);
      Signed(x, files, before) +
        if last.Sign? && last.session in n.pending && Next(x, n, last).1 == Done
        then [n.pending[last.session].fingerprint] else []
  }

  /** The shares recorded are exactly these, so no nonce signs twice. */
  lemma {:induction false} SignedOnce(x: Suite, files: map<Path, File>, steps: seq<Step>)
    ensures After(x, Initial(files), steps).shares == Signed(x, files, steps) && Distinct(Signed(x, files, steps))
  {
    hide RecordDigest, ClaimPath, ClaimBytes, OnceWritten, Consume, Sound;
    if steps != [] {
      SignedOnce(x, files, steps[..|steps| - 1]);
    }
    UsedAtMostOnce(x, files, steps);
  }

  /** On every run, a nonce in memory signs an accepted package, once its record is written, if and only if it
      has not been consumed; and the record it writes is the reservation's digest and the transcript. */
  lemma PendingSigns(x: Suite, files: map<Path, File>, steps: seq<Step>, session: Digest, transcript: Digest)
    ensures var n := After(x, Initial(files), steps);
      session in n.pending ==>
        var f := n.pending[session].fingerprint;
        var (m, a) := Next(x, n, Sign(session, true, transcript, Write(true, 0, true)));
        && (a == Done <==> Consumed(f) !in n.files)
        && (a == Done ==>
              && m.shares == n.shares + [f]
              && m.files == n.files[Consumed(f) := File(RecordDigest(x, n.pending[session]) + transcript, true)])
  {
    hide RecordDigest, After;
    RunSound(x, files, steps);
  }

  /** What a restart may do to the directory: exactly, keep every file whose write succeeded, and keep, shorten
      or lose any other. */
  lemma RestartExactly(files: map<Path, File>, after: map<Path, File>)
    ensures (exists kept :: Survivors(files, kept) == after) <==>
      && (forall p <- files :: files[p].durable ==> p in after && after[p] == files[p])
      && (forall p <- after :: p in files && after[p].bytes <= files[p].bytes && after[p].durable == files[p].durable)
  {
    if && (forall p <- files :: files[p].durable ==> p in after && after[p] == files[p])
       && (forall p <- after :: p in files && after[p].bytes <= files[p].bytes && after[p].durable == files[p].durable)
    {
      var kept := map p | p in after :: |after[p].bytes|;
      forall p <- after ensures Survivors(files, kept)[p] == after[p] {
        assert files[p].bytes[..|after[p].bytes|] == after[p].bytes;
      }
      assert Survivors(files, kept) == after;
    }
  }

  /** A share is made only for a nonce whose reservation was written whole and successfully, with the record
      digest of the very reservation consumed, and whose consumption had not been recorded before. */
  lemma ConsumedWasReserved(x: Suite, files: map<Path, File>, steps: seq<Step>, session: Digest, ok: bool,
                            transcript: Digest, w: Write)
    requires Next(x, After(x, Initial(files), steps), Sign(session, ok, transcript, w)).1 == Done
    ensures var n := After(x, Initial(files), steps);
      && session in n.pending && n.pending[session].session == session
      && Reserved(n.pending[session].fingerprint) in n.written
      && Settled(n.files, Reserved(n.pending[session].fingerprint))
      && n.files[Reserved(n.pending[session].fingerprint)].bytes == RecordDigest(x, n.pending[session])
      && Consumed(n.pending[session].fingerprint) !in n.files && n.pending[session].fingerprint !in n.shares
  {
    hide RecordDigest;
    RunSound(x, files, steps);
  }

  /** And once a consumption is recorded it stays, so no later signing with that fingerprint succeeds. */
  lemma {:induction false} ConsumptionPermanent(x: Suite, files: map<Path, File>, steps: seq<Step>, i: nat, p: Path)
    requires i <= |steps| && p in After(x, Initial(files), steps[..i]).written
    ensures var before := After(x, Initial(files), steps[..i]);
      var n := After(x, Initial(files), steps);
      p in n.written && p in n.files && p in before.files && n.files[p] == before.files[p]
    decreases |steps|
  {
    hide Next, Sound;
    if i == |steps| {
      assert steps[..i] == steps;
      RunSound(x, files, steps);
      SoundSettled(x, After(x, Initial(files), steps), p);
    } else {
      var shorter := steps[..|steps| - 1];
      assert shorter[..i] == steps[..i];
      ConsumptionPermanent(x, files, shorter, i, p);
      RunSound(x, files, shorter);
      SoundSettled(x, After(x, Initial(files), shorter), p);
      StepKeeps(x, After(x, Initial(files), shorter), steps[|steps| - 1]);
    }
  }

  lemma SoundSettled(x: Suite, n: Node, p: Path)
    requires Sound(x, n) && p in n.written
    ensures Settled(n.files, p)
  {
    hide RecordDigest;
  }

  /** Repeating an operation claim is refused, after any run in which it once succeeded. */
  lemma ClaimRefusedAgain(x: Suite, files: map<Path, File>, steps: seq<Step>, i: nat, c: Claim, w: Write)
    requires i < |steps| && steps[i].ClaimOperation? && steps[i].claim == c
    requires Next(x, After(x, Initial(files), steps[..i]), steps[i]).1 == Done
    ensures Next(x, After(x, Initial(files), steps), ClaimOperation(c, w)).1 == Refused(AlreadyExists)
  {
    hide ClaimBytes, ClaimPath, RecordDigest;
    assert steps[..i + 1][..i] == steps[..i];
    ConsumptionPermanent(x, files, steps, i + 1, ClaimPath(x, c));
  }

  // ---------------------------------------------------------------- what the digests stand for

  /** A record digest stands for one reservation, for a hash that separates the two records. */
  lemma RecordIdentifies(x: Suite, q: Reservation, r: Reservation)
    requires x.sha256(RecordBytes(x, q)) == x.sha256(RecordBytes(x, r)) ==> RecordBytes(x, q) == RecordBytes(x, r)
    ensures RecordDigest(x, q) == RecordDigest(x, r) <==> q == r
  {
    hide BigEndian;
    if RecordDigest(x, q) == RecordDigest(x, r) {
      var s1, t1 := q.fingerprint + (q.hiding + q.binding), r.fingerprint + (r.hiding + r.binding);
      Split(x.recordDomain, q.session + (BigEndian(q.participant, 2) + s1),
            x.recordDomain, r.session + (BigEndian(r.participant, 2) + t1));
      Split(q.session, BigEndian(q.participant, 2) + s1, r.session, BigEndian(r.participant, 2) + t1);
      Split(BigEndian(q.participant, 2), s1, BigEndian(r.participant, 2), t1);
      Split(q.fingerprint, q.hiding + q.binding, r.fingerprint, r.hiding + r.binding);
      Split(q.hiding, q.binding, r.hiding, r.binding);
      Powers();
      BigEndianReads(q.participant, 2);
      BigEndianReads(r.participant, 2);
    }
  }

  /** An operation claim's file stands for one operation: the tags have one length, the separator has its own. */
  lemma ClaimIdentifies(x: Suite, c: Claim, d: Claim)
    requires |c.tag| == |d.tag|
    requires x.sha256(ClaimBytes(x, c)) == x.sha256(ClaimBytes(x, d)) ==> ClaimBytes(x, c) == ClaimBytes(x, d)
    ensures ClaimPath(x, c) == ClaimPath(x, d) <==> c == d
  {
    hide BigEndian;
    if ClaimPath(x, c) == ClaimPath(x, d) {
      var s1, t1 := c.separator + c.binding, d.separator + d.binding;
      var s2, t2 := BigEndian(|c.separator|, 8) + s1, BigEndian(|d.separator|, 8) + t1;
      Split(x.operationDomain, c.tag + (c.profileKey + (c.session + s2)),
            x.operationDomain, d.tag + (d.profileKey + (d.session + t2)));
      Split(c.tag, c.profileKey + (c.session + s2), d.tag, d.profileKey + (d.session + t2));
      Split(c.profileKey, c.session + s2, d.profileKey, d.session + t2);
      Split(c.session, s2, d.session, t2);
      Split(BigEndian(|c.separator|, 8), s1, BigEndian(|d.separator|, 8), t1);
      Powers();
      BigEndianReads(|c.separator|, 8);
      BigEndianReads(|d.separator|, 8);
      Split(c.separator, c.binding, d.separator, d.binding);
    }
  }
}
