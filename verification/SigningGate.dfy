/** Claim before sign, with exclusive shares.

    Concurrent signing calls are a state machine: one step is one atomic action of one call (a check,
    the claim, one compare-and-exchange, entering or leaving the native protocol, dropping one
    reservation), an opening of the claim store, or a crash. The theorems hold in every interleaving. */
module SigningGate {
  import opened Bytes
  import opened ClaimLog
  import opened Options

  type CallId = nat
  type ShareId = nat

  datatype Error =
    Interrupted | Expired | SessionTerminal | ReplayCacheFull | ReplayStoreUnavailable | ShareMismatch | ShareBusy
    | TransportTerminated | InvalidReceiver | InvalidRuntimeLimits | NativeFailure

  datatype Outcome = Signed | Failed(error: Error)

  /** The parts of an approved request that the gate reads. */
  datatype Request = Request(
    namespace: Namespace, session: Digest, expiresAt: int, online: (string, string), receiver: string,
    groupKey: seq<byte>)

  /** What the library says of the policy, and whether the deadline fits the clock. */
  datatype Preparation = Preparation(policy: Option<Error>, deadlineFits: bool)

  datatype Share = Share(party: string, groupKey: seq<byte>)

  /** Where a call stands. `Leaving` drops its reservations, then the call is `Done`. */
  datatype Stage =
    Started | Admitted | Claimed | Matched | HasFirst | HasBoth | Native | Leaving(outcome: Outcome)
    | Done(outcome: Outcome)

  /** `cancellable` distinguishes `sign_with_providers` from `sign`. */
  datatype Call = Call(
    request: Request, first: ShareId, second: ShareId, now: int, cancellable: bool, stage: Stage, held: set<ShareId>)

  datatype Env = Env(context: Context, shares: ShareId -> Share)

  /** `granted` and `entered` record the keys claimed and the keys for which the native protocol began. */
  datatype Gate = Gate(
    store: Store, calls: map<CallId, Call>, busy: set<ShareId>, granted: set<Digest>, entered: seq<Digest>)

  datatype Step =
    | Begin(id: CallId, request: Request, first: ShareId, second: ShareId, now: int, cancellable: bool)
    | Admit(id: CallId, cancelled: bool)
    | Claim(id: CallId, w: Write)
    | Match(id: CallId)
    | ReserveFirst(id: CallId)
    | ReserveSecond(id: CallId)
    | Enter(id: CallId, preparation: Preparation, cancelled: bool)
    | Finish(id: CallId, outcome: Outcome, cancelled: bool)
    | Drop(id: CallId)
    | OpenStore(w: Write)
    | Crash

  function Key(x: Env, r: Request): Digest {
    ClaimKey(x.context.sha256, r.namespace, r.session)
  }

  function MapClaimError(e: ClaimError): Error {
    if e == AlreadyClaimed then SessionTerminal else if e == StoreFull then ReplayCacheFull else ReplayStoreUnavailable
  }

  function AfterClaim(r: Reply): Stage {
    if r == ClaimOk then Claimed
    else if r.Refused? then Done(Failed(MapClaimError(r.error)))
    else Done(Failed(ReplayStoreUnavailable))
  }

  predicate SharesMatch(x: Env, c: Call) {
    && x.shares(c.first) == Share(c.request.online.0, c.request.groupKey)
    && x.shares(c.second) == Share(c.request.online.1, c.request.groupKey)
  }

  /** The checks between the reservations and the native protocol: policy, receiver, expiry, deadline. */
  function PreparationError(r: Request, now: int, p: Preparation): Option<Error> {
    if p.policy.Some? then p.policy
    else if r.receiver != r.online.0 && r.receiver != r.online.1 then Some(InvalidReceiver)
    else if r.expiresAt < now then Some(Expired)
    else if !p.deadlineFits then Some(InvalidRuntimeLimits)
    else None
  }

  /** This step makes this call enter the native protocol. */
  predicate Enters(c: Call, s: Step) {
    c.stage == HasBoth && s.Enter? && PreparationError(c.request, c.now, s.preparation).None?
  }

  /** A transport that terminated because of a cancellation reports the cancellation. */
  function Reported(c: Call, outcome: Outcome, cancelled: bool): Outcome {
    if outcome == Failed(TransportTerminated) && c.cancellable && cancelled then Failed(Interrupted) else outcome
  }

  function Prepared(c: Call, e: Option<Error>, cancelled: bool): Stage {
    if e.None? then Native else Leaving(Reported(c, Failed(e.value), cancelled))
  }

  /** A step of one call: its next stage and holdings, and what it does to the busy flags. */
  function Local(x: Env, c: Call, busy: set<ShareId>, s: Step): (Call, set<ShareId>) {
    match s
    case Admit(_, cancelled) =>
      if c.stage != Started then (c, busy)
      else if c.cancellable && cancelled then (c.(stage := Done(Failed(Interrupted))), busy)
      else if c.request.expiresAt <= c.now then (c.(stage := Done(Failed(Expired))), busy)
      else (c.(stage := Admitted), busy)
    case Match(_) =>
      if c.stage != Claimed then (c, busy)
      else (c.(stage := if SharesMatch(x, c) then Matched else Done(Failed(ShareMismatch))), busy)
    case ReserveFirst(_) =>
      if c.stage != Matched then (c, busy)
      else if c.first in busy then (c.(stage := Done(Failed(ShareBusy))), busy)
      else (c.(stage := HasFirst, held := {c.first}), busy + {c.first})
    case ReserveSecond(_) =>
      if c.stage != HasFirst then (c, busy)
      else if c.second in busy then (c.(stage := Leaving(Failed(ShareBusy))), busy)
      else (c.(stage := HasBoth, held := {c.first, c.second}), busy + {c.second})
    case Enter(_, preparation, cancelled) =>
      if c.stage != HasBoth then (c, busy)
      else (c.(stage := Prepared(c, PreparationError(c.request, c.now, preparation), cancelled)), busy)
    case Finish(_, outcome, cancelled) =>
      if c.stage != Native then (c, busy) else (c.(stage := Leaving(Reported(c, outcome, cancelled))), busy)
    case Drop(_) =>
      if !c.stage.Leaving? then (c, busy)
      else if c.first in c.held then (c.(held := c.held - {c.first}), busy - {c.first})
      else if c.second in c.held then (c.(held := c.held - {c.second}), busy - {c.second})
      else (c.(stage := Done(c.stage.outcome)), busy)
    case _ => (c, busy)
  }

  predicate IsLocal(s: Step) {
    s.Admit? || s.Match? || s.ReserveFirst? || s.ReserveSecond? || s.Enter? || s.Finish? || s.Drop?
  }

  function Next(x: Env, g: Gate, s: Step): Gate {
    if s.OpenStore? then Gate(ClaimLog.OpenStore(x.context, g.store, s.w).0, g.calls, g.busy, g.granted, g.entered)
    else if s.Crash? then Gate(Store(g.store.disk, None), map[], {}, g.granted, g.entered)
    else if s.Begin? then
      if s.id in g.calls then g
      else Gate(g.store, g.calls[s.id := Call(s.request, s.first, s.second, s.now, s.cancellable, Started, {})],
                g.busy, g.granted, g.entered)
    else if s.id !in g.calls then g
    else if s.Claim? then
      if g.calls[s.id].stage != Admitted then g else ClaimStep(x, g, s.id, s.w)
    else LocalStep(x, g, s)
  }

  function LocalStep(x: Env, g: Gate, s: Step): Gate
    requires IsLocal(s) && s.id in g.calls
  {
    Gate(g.store, g.calls[s.id := Local(x, g.calls[s.id], g.busy, s).0],
         Local(x, g.calls[s.id], g.busy, s).1, g.granted,
         if Enters(g.calls[s.id], s) then g.entered + [Key(x, g.calls[s.id].request)] else g.entered)
  }

  function ClaimEvent(c: Call, w: Write): Event {
    ClaimLog.Claim(c.request.namespace, c.request.session, w)
  }

  function ClaimStep(x: Env, g: Gate, id: CallId, w: Write): Gate
    requires id in g.calls
  {
    var (store, reply) := Apply(x.context, g.store, ClaimEvent(g.calls[id], w));
    Gate(store, g.calls[id := g.calls[id].(stage := AfterClaim(reply))], g.busy,
         g.granted + Granted(x.context, g.store, ClaimEvent(g.calls[id], w)), g.entered)
  }

  function After(x: Env, g: Gate, steps: seq<Step>): Gate {
    if steps == [] then g else Next(x, After(x, g, steps[..|steps| - 1]), steps[|steps| - 1])
  }

  /** A machine that has just started, over whatever claim log it finds. */
  function Initial(disk: seq<byte>): Gate {
    Gate(Store(disk, None), map[], {}, {}, [])
  }

  // ---------------------------------------------------------------- exclusive shares

  predicate Holds(g: Gate, id: CallId, share: ShareId) {
    id in g.calls && share in g.calls[id].held
  }

  ghost predicate HeldBySome(g: Gate, share: ShareId) {
    exists id :: Holds(g, id, share)
  }

  /** What a call at each stage holds. */
  predicate Shaped(c: Call) {
    match c.stage
    case HasFirst => c.held == {c.first}
    case HasBoth => c.held == {c.first, c.second} && c.first != c.second
    case Native => c.held == {c.first, c.second} && c.first != c.second
    case Leaving(_) => c.held <= {c.first, c.second}
    case _ => c.held == {}
  }

  /** The busy flags are exactly the reservations of the active calls, each owned by one call. */
  ghost predicate Exclusive(g: Gate) {
    && (forall share <- g.busy :: HeldBySome(g, share))
    && (forall id, share | Holds(g, id, share) :: share in g.busy)
    && (forall id, other, share | Holds(g, id, share) && Holds(g, other, share) :: id == other)
    && (forall id <- g.calls :: Shaped(g.calls[id]))
  }

  /** What one step of a call does to the flags: it takes free ones or returns its own. */
  lemma LocalShares(x: Env, c: Call, busy: set<ShareId>, s: Step)
    requires IsLocal(s) && Shaped(c) && c.held <= busy
    ensures var (d, flags) := Local(x, c, busy, s);
      Shaped(d) && flags == (busy - c.held) + d.held && d.held - c.held !! busy
  {}

  /** One call changes to `d`, taking only free shares; the flags follow. */
  lemma Replaced(g: Gate, id: CallId, d: Call, h: Gate)
    requires Exclusive(g) && id in g.calls && Shaped(d) && h.calls == g.calls[id := d]
    requires h.busy == (g.busy - g.calls[id].held) + d.held && d.held - g.calls[id].held !! g.busy
    ensures Exclusive(h)
  {
    forall share <- h.busy ensures HeldBySome(h, share) {
      if share in d.held {
        assert Holds(h, id, share);
      } else {
        assert HeldBySome(g, share);
        var owner :| Holds(g, owner, share);
        assert Holds(h, owner, share);
      }
    }
    forall i, share | Holds(h, i, share) ensures share in h.busy && (i != id ==> share !in d.held) {
      if i != id {
        assert Holds(g, i, share);
        assert share in g.calls[id].held ==> Holds(g, id, share);
      }
    }
    forall i, j, share | Holds(h, i, share) && Holds(h, j, share) ensures i == j {
      assert i != id && j != id ==> Holds(g, i, share) && Holds(g, j, share);
    }
  }

  lemma StepExclusive(x: Env, g: Gate, s: Step)
    requires Exclusive(g)
    ensures Exclusive(Next(x, g, s))
  {
    hide Apply, Local, Shaped, ClaimLog.OpenStore, Granted, SharesMatch;
    if s.OpenStore? || s.Crash? {
      SameCalls(g, Next(x, g, s));
    } else if s.Begin? {
      if s.id !in g.calls {
        Added(g, s.id, Call(s.request, s.first, s.second, s.now, s.cancellable, Started, {}), Next(x, g, s));
      }
    } else if s.id in g.calls {
      if s.Claim? {
        if g.calls[s.id].stage == Admitted {
          ClaimShape(g.calls[s.id], Apply(x.context, g.store, ClaimEvent(g.calls[s.id], s.w)).1);
          Replaced(g, s.id, Next(x, g, s).calls[s.id], Next(x, g, s));
        }
      } else {
        assert forall share | share in g.calls[s.id].held :: Holds(g, s.id, share);
        LocalShares(x, g.calls[s.id], g.busy, s);
        Replaced(g, s.id, Local(x, g.calls[s.id], g.busy, s).0, Next(x, g, s));
      }
    }
  }

  lemma SameCalls(g: Gate, h: Gate)
    requires Exclusive(g) && ((h.calls == g.calls && h.busy == g.busy) || (h.calls == map[] && h.busy == {}))
    ensures Exclusive(h)
  {
    if h.calls == g.calls {
      forall id, share ensures Holds(h, id, share) == Holds(g, id, share) {}
      forall share <- h.busy ensures HeldBySome(h, share) {
        assert HeldBySome(g, share);
        var owner :| Holds(g, owner, share);
        assert Holds(h, owner, share);
      }
    }
  }

  lemma Added(g: Gate, id: CallId, c: Call, h: Gate)
    requires Exclusive(g) && id !in g.calls && c.stage == Started && c.held == {}
    requires h.calls == g.calls[id := c] && h.busy == g.busy
    ensures Exclusive(h)
  {
    forall i, share ensures Holds(h, i, share) == Holds(g, i, share) {}
    forall share <- h.busy ensures HeldBySome(h, share) {
      assert HeldBySome(g, share);
      var owner :| Holds(g, owner, share);
      assert Holds(h, owner, share);
    }
  }

  lemma ClaimShape(c: Call, r: Reply)
    requires Shaped(c) && c.stage == Admitted
    ensures Shaped(c.(stage := AfterClaim(r))) && c.held == {}
  {}

  // ---------------------------------------------------------------- once per session

  /** The call has claimed its session and not yet entered the native protocol. */
  predicate Pending(c: Call) {
    c.stage in {Claimed, Matched, HasFirst, HasBoth}
  }

  predicate PendingAt(g: Gate, id: CallId) {
    id in g.calls && Pending(g.calls[id])
  }

  /** The call owns its session: it has claimed it and has not left the native protocol. */
  predicate OwnsAt(g: Gate, id: CallId) {
    id in g.calls && (Pending(g.calls[id]) || g.calls[id].stage == Native)
  }

  ghost predicate Once(x: Env, g: Gate) {
    && Remembers(x.context, g.store, g.granted)
    && Distinct(g.entered)
    && (forall key <- g.entered :: key in g.granted)
    && (forall id | OwnsAt(g, id) :: Key(x, g.calls[id].request) in g.granted)
    && (forall id | PendingAt(g, id) :: Key(x, g.calls[id].request) !in g.entered)
    && (forall id, other | OwnsAt(g, id) && OwnsAt(g, other)
          && Key(x, g.calls[id].request) == Key(x, g.calls[other].request) :: id == other)
  }

  lemma LocalKeepsPending(x: Env, c: Call, busy: set<ShareId>, s: Step)
    requires IsLocal(s)
    ensures var d := Local(x, c, busy, s).0;
      && d.request == c.request && (Pending(d) ==> Pending(c))
      && (d.stage == Native ==> Pending(c) || c.stage == Native)
      && (Enters(c, s) ==> !Pending(d))
  {}

  lemma LocalOnce(x: Env, g: Gate, s: Step)
    requires Once(x, g) && IsLocal(s) && s.id in g.calls
    ensures Once(x, LocalStep(x, g, s))
  {
    hide Local, Remembers, Key;
    var h := LocalStep(x, g, s);
    LocalKeepsPending(x, g.calls[s.id], g.busy, s);
    forall id | OwnsAt(h, id) ensures OwnsAt(g, id) && h.calls[id].request == g.calls[id].request {}
    forall id | PendingAt(h, id) ensures PendingAt(g, id) && OwnsAt(g, id) {}
    if h.entered != g.entered {
      assert PendingAt(g, s.id) && OwnsAt(g, s.id);
      assert Distinct(h.entered);
    }
  }

  lemma ClaimOnce(x: Env, g: Gate, id: CallId, w: Write)
    requires Once(x, g) && id in g.calls && g.calls[id].stage == Admitted
    ensures Once(x, ClaimStep(x, g, id, w))
  {
    hide Apply, Remembers, Key;
    var h := ClaimStep(x, g, id, w);
    var e := ClaimEvent(g.calls[id], w);
    StepRemembers(x.context, g.store, g.granted, e);
    GrantedKey(x, g, id, w);
    forall i | OwnsAt(h, i) && i != id ensures OwnsAt(g, i) && h.calls[i] == g.calls[i] {}
    forall i | PendingAt(h, i) && i != id ensures PendingAt(g, i) {}
    forall i | OwnsAt(h, i) && i != id && OwnsAt(h, id)
      ensures Key(x, h.calls[i].request) != Key(x, h.calls[id].request) {}
  }

  lemma GrantedKey(x: Env, g: Gate, id: CallId, w: Write)
    requires id in g.calls
    ensures var e := ClaimEvent(g.calls[id], w);
      Granted(x.context, g.store, e) ==
        if Apply(x.context, g.store, e).1 == ClaimOk then {Key(x, g.calls[id].request)} else {}
  {
    hide Apply;
  }

  lemma StepOnce(x: Env, g: Gate, s: Step)
    requires Once(x, g)
    ensures Once(x, Next(x, g, s)) && g.granted <= Next(x, g, s).granted && g.entered <= Next(x, g, s).entered
  {
    hide Apply, Local, Remembers, ClaimLog.OpenStore, Granted;
    if s.OpenStore? {
      OpenRemembers(x.context, g.store, g.granted, s.w);
      SamePending(x, g, Next(x, g, s));
    } else if s.Crash? {
      ExitRemembers(x.context, g.store, g.granted);
      SamePending(x, g, Next(x, g, s));
    } else if s.Begin? {
      SamePending(x, g, Next(x, g, s));
    } else if s.id in g.calls {
      if s.Claim? {
        if g.calls[s.id].stage == Admitted {
          ClaimOnce(x, g, s.id, s.w);
        }
      } else {
        LocalOnce(x, g, s);
      }
    }
  }

  lemma ExitRemembers(c: Context, s: Store, accepted: set<Digest>)
    requires Remembers(c, s, accepted)
    ensures Remembers(c, Store(s.disk, None), accepted)
  {
    hide Load;
  }

  lemma SamePending(x: Env, g: Gate, h: Gate)
    requires Once(x, g) && Remembers(x.context, h.store, h.granted) && h.granted == g.granted && h.entered == g.entered
    requires forall id | OwnsAt(h, id) :: OwnsAt(g, id) && h.calls[id] == g.calls[id]
    ensures Once(x, h)
  {
    hide Remembers, Key;
    forall id | PendingAt(h, id) ensures OwnsAt(h, id) && PendingAt(g, id) {}
  }

  // ---------------------------------------------------------------- every run

  /** In every interleaving, and across every crash and restart: the native protocol is entered at most
      once per namespace and session, only after its claim; and each share serves one call at a time. */
  lemma {:induction false} ClaimBeforeSign(x: Env, disk: seq<byte>, steps: seq<Step>)
    ensures Once(x, After(x, Initial(disk), steps)) && Exclusive(After(x, Initial(disk), steps))
  {
    hide Once, Exclusive, Next;
    if steps == [] {
      Starts(x, disk);
    } else {
      var n := |steps| - 1;
      ClaimBeforeSign(x, disk, steps[..n]);
      StepOnce(x, After(x, Initial(disk), steps[..n]), steps[n]);
      StepExclusive(x, After(x, Initial(disk), steps[..n]), steps[n]);
    }
  }

  lemma Starts(x: Env, disk: seq<byte>)
    ensures Once(x, Initial(disk)) && Exclusive(Initial(disk))
  {
    hide Remembers, Key;
    NothingYet(x.context, Store(disk, None));
  }

  /** Two calls inside the native protocol, in one reachable state, share no share and no session. */
  lemma NativeCallsDisjoint(x: Env, disk: seq<byte>, steps: seq<Step>, id: CallId, other: CallId)
    requires var g := After(x, Initial(disk), steps);
      id in g.calls && other in g.calls && id != other && g.calls[id].stage == Native && g.calls[other].stage == Native
    ensures var g := After(x, Initial(disk), steps);
      && {g.calls[id].first, g.calls[id].second} !! {g.calls[other].first, g.calls[other].second}
      && Key(x, g.calls[id].request) != Key(x, g.calls[other].request)
  {
    hide Next, After, Remembers, Key;
    ClaimBeforeSign(x, disk, steps);
    var g := After(x, Initial(disk), steps);
    assert OwnsAt(g, id) && OwnsAt(g, other);
    forall share | share in g.calls[id].held ensures share !in g.calls[other].held {
      assert Holds(g, id, share);
      assert share in g.calls[other].held ==> Holds(g, other, share);
    }
  }

  /** A share is busy only while some call that has neither finished nor died holds it: a call that ends,
      for a mismatch, a busy share, a cancellation or any other reason, leaves both its shares free. */
  lemma DoneHoldsNothing(x: Env, disk: seq<byte>, steps: seq<Step>, share: ShareId)
    requires share in After(x, Initial(disk), steps).busy
    ensures var g := After(x, Initial(disk), steps);
      exists id :: Holds(g, id, share) &&
        (g.calls[id].stage in {HasFirst, HasBoth, Native} || g.calls[id].stage.Leaving?)
  {
    hide Next, Once, After;
    ClaimBeforeSign(x, disk, steps);
    var g := After(x, Initial(disk), steps);
    assert HeldBySome(g, share);
    var id :| Holds(g, id, share);
    assert Shaped(g.calls[id]);
  }

  /** A second reservation that fails gives the first share back, and touches no other. */
  lemma FailedReservationFrees(x: Env, g: Gate, id: CallId)
    requires Exclusive(g) && id in g.calls && g.calls[id].stage == HasFirst && g.calls[id].second in g.busy
    ensures var h := After(x, g, [ReserveSecond(id), Drop(id), Drop(id)]);
      && h.busy == g.busy - {g.calls[id].first} && id in h.calls && h.calls[id].stage == Done(Failed(ShareBusy))
      && h.entered == g.entered && h.granted == g.granted
      && (forall other <- g.calls :: other != id ==> other in h.calls && h.calls[other] == g.calls[other])
  {
    hide Holds;
    var one, two := [ReserveSecond(id)], [ReserveSecond(id), Drop(id)];
    var three := [ReserveSecond(id), Drop(id), Drop(id)];
    assert three[..2] == two && two[..1] == one && one[..0] == [];
    assert After(x, g, one) == Next(x, g, ReserveSecond(id));
    assert After(x, g, two) == Next(x, After(x, g, one), Drop(id));
  }

  /** Once consumed, a session is never given out again, however the call that consumed it ended. */
  lemma {:induction false} ConsumedStays(x: Env, disk: seq<byte>, steps: seq<Step>, i: nat, id: CallId, w: Write)
    requires i <= |steps|
    requires var g := After(x, Initial(disk), steps);
      && id in g.calls && g.calls[id].stage == Admitted
      && Key(x, g.calls[id].request) in After(x, Initial(disk), steps[..i]).granted
    ensures Next(x, After(x, Initial(disk), steps), Step.Claim(id, w)).calls[id].stage.Done?
  {
    hide Apply, Once, Remembers, Key;
    var g := After(x, Initial(disk), steps);
    GrantedGrows(x, disk, steps, i);
    ClaimBeforeSign(x, disk, steps);
    OnceRemembers(x, g);
    StepRemembers(x.context, g.store, g.granted, ClaimEvent(g.calls[id], w));
    GrantedKey(x, g, id, w);
  }

  lemma OnceRemembers(x: Env, g: Gate)
    requires Once(x, g)
    ensures Remembers(x.context, g.store, g.granted)
  {
    hide Remembers, Key;
  }

  lemma {:induction false} GrantedGrows(x: Env, disk: seq<byte>, steps: seq<Step>, i: nat)
    requires i <= |steps|
    ensures After(x, Initial(disk), steps[..i]).granted <= After(x, Initial(disk), steps).granted
    decreases |steps|
  {
    hide Next, Once;
    if i == |steps| {
      assert steps[..i] == steps;
    } else {
      var shorter := steps[..|steps| - 1];
      assert shorter[..i] == steps[..i];
      GrantedGrows(x, disk, shorter, i);
      ClaimBeforeSign(x, disk, shorter);
      StepOnce(x, After(x, Initial(disk), shorter), steps[|steps| - 1]);
    }
  }

  // ---------------------------------------------------------------- one call, in place

  class LocalShare {
    const share: Share
    var busy: bool

    constructor (share: Share)
      ensures this.share == share && !busy
    {
      this.share, busy := share, false;
    }

    /** The compare-and-exchange. */
    method Reserve() returns (ok: bool)
      modifies this
      ensures busy && ok == !old(busy)
    {
      ok := !busy;
      busy := true;
    }

    method Release()
      modifies this
      ensures !busy
    {
      busy := false;
    }
  }

  /** `sign_started` without interference: `native` stands for what the native protocol returns. Both flags
      end as they began, and the native protocol runs only with both shares matching, distinct and free. */
  method SignStarted(r: Request, first: LocalShare, second: LocalShare, now: int, preparation: Preparation,
                     native: Outcome)
    returns (outcome: Outcome, entered: bool)
    modifies first, second
    ensures first.busy == old(first.busy) && second.busy == old(second.busy)
    ensures var matching :=
        first.share == Share(r.online.0, r.groupKey) && second.share == Share(r.online.1, r.groupKey);
      var free := first != second && !old(first.busy) && !old(second.busy);
      var error := PreparationError(r, now, preparation);
      && (entered <==> matching && free && error.None?)
      && outcome ==
        if !matching then Failed(ShareMismatch) else if !free then Failed(ShareBusy)
        else if error.Some? then Failed(error.value) else native
  {
    if first.share != Share(r.online.0, r.groupKey) || second.share != Share(r.online.1, r.groupKey) {
      return Failed(ShareMismatch), false;
    }
    var ok := first.Reserve();
    if !ok {
      return Failed(ShareBusy), false;
    }
    ok := second.Reserve();
    if !ok {
      first.Release();
      return Failed(ShareBusy), false;
    }
    outcome, entered := native, false;
    if preparation.policy.Some? {
      outcome := Failed(preparation.policy.value);
    } else if r.receiver != r.online.0 && r.receiver != r.online.1 {
      outcome := Failed(InvalidReceiver);
    } else if r.expiresAt < now {
      outcome := Failed(Expired);
    } else if !preparation.deadlineFits {
      outcome := Failed(InvalidRuntimeLimits);
    } else {
      entered := true;
    }
    first.Release();
    second.Release();
  }

  /** What a call without interference answers, and whether it enters the native protocol. */
  function Alone(cancelled: bool, expired: bool, reply: Reply, matching: bool, free: bool, error: Option<Error>,
                 native: Outcome, cancelledSince: bool): (Outcome, bool) {
    if cancelled then (Failed(Interrupted), false)
    else if expired then (Failed(Expired), false)
    else if reply == Refused(AlreadyClaimed) then (Failed(SessionTerminal), false)
    else if reply == Refused(StoreFull) then (Failed(ReplayCacheFull), false)
    else if reply != ClaimOk then (Failed(ReplayStoreUnavailable), false)
    else if !matching then (Failed(ShareMismatch), false)
    else if !free then (Failed(ShareBusy), false)
    else
      var result := if error.Some? then Failed(error.value) else native;
      (if result == Failed(TransportTerminated) && cancelledSince then Failed(Interrupted) else result, error.None?)
  }

  /** `sign_with_providers` on one claim store: nothing is claimed when cancelled or expired, and the
      session stays claimed however the rest of the call goes. */
  method SignWithProviders(claims: ClaimState, r: Request, first: LocalShare, second: LocalShare,
                           cancelled: bool, now: int, w: Write, preparation: Preparation,
                           native: Outcome, cancelledSince: bool)
    returns (outcome: Outcome, entered: bool)
    requires Possible(w, RECORD_BYTES)
    modifies claims, first, second
    ensures first.busy == old(first.busy) && second.busy == old(second.busy)
    ensures claims.View() ==
      if cancelled || r.expiresAt <= now then old(claims.View())
      else ClaimScoped(claims.context, old(claims.View()), r.namespace, r.session, w).0
    ensures (outcome, entered) ==
      Alone(cancelled, r.expiresAt <= now,
            ClaimScoped(claims.context, old(claims.View()), r.namespace, r.session, w).1,
            first.share == Share(r.online.0, r.groupKey) && second.share == Share(r.online.1, r.groupKey),
            first != second && !old(first.busy) && !old(second.busy), PreparationError(r, now, preparation), native,
            cancelledSince)
  {
    if cancelled {
      return Failed(Interrupted), false;
    }
    if r.expiresAt <= now {
      return Failed(Expired), false;
    }
    var reply := claims.Claim(r.namespace, r.session, w);
    if reply != ClaimOk {
      return AfterClaim(reply).outcome, false;
    }
    outcome, entered := SignStarted(r, first, second, now, preparation, native);
    if outcome == Failed(TransportTerminated) && cancelledSince {
      outcome := Failed(Interrupted);
    }
  }

  // ---------------------------------------------------------------- the machine, uninterrupted

  /** The steps of one call, with nothing in between: up to the claim, to the reservations, to the end. */
  function Start(id: CallId, c: Call, cancelled: bool, w: Write): seq<Step> {
    [Begin(id, c.request, c.first, c.second, c.now, c.cancellable), Admit(id, cancelled), Step.Claim(id, w)]
  }

  function Reserving(id: CallId): seq<Step> {
    [Match(id), ReserveFirst(id), ReserveSecond(id)]
  }

  function Running(id: CallId, p: Preparation, native: Outcome, since: bool): (r: seq<Step>)
    ensures forall s <- r :: IsLocal(s) && s.id == id && !s.Drop?
  {
    [Enter(id, p, since), Finish(id, native, since)]
  }

  function Dropping(id: CallId): (r: seq<Step>)
    ensures forall s <- r :: IsLocal(s) && s.id == id
  {
    [Drop(id), Drop(id), Drop(id)]
  }

  function Rest(id: CallId, p: Preparation, native: Outcome, since: bool): (r: seq<Step>)
    ensures forall s <- r :: IsLocal(s) && s.id == id
  {
    Reserving(id) + Running(id, p, native, since) + Dropping(id)
  }

  lemma {:induction false} AfterAppend(x: Env, g: Gate, a: seq<Step>, b: seq<Step>)
    ensures After(x, g, a + b) == After(x, After(x, g, a), b)
    decreases |b|
  {
    hide Next;
    if b == [] {
      assert a + b == a;
    } else {
      AfterAppend(x, g, a, b[..|b| - 1]);
      assert (a + b)[..|a + b| - 1] == a + b[..|b| - 1];
    }
  }

  lemma TwoSteps(x: Env, g: Gate, a: Step, b: Step)
    ensures After(x, g, [a, b]) == Next(x, Next(x, g, a), b)
  {
    hide Next;
    assert [a, b][..1] == [a] && [a][..0] == [];
    assert After(x, g, [a]) == Next(x, After(x, g, []), a);
  }

  lemma ThreeSteps(x: Env, g: Gate, a: Step, b: Step, c: Step)
    ensures After(x, g, [a, b, c]) == Next(x, Next(x, Next(x, g, a), b), c)
  {
    hide Next;
    assert [a, b, c][..2] == [a, b];
    TwoSteps(x, g, a, b);
  }

  /** The gate with one call, the flags and the entries replaced. */
  function With(g: Gate, id: CallId, c: Call, busy: set<ShareId>, entered: seq<Digest>): Gate {
    Gate(g.store, g.calls[id := c], busy, g.granted, entered)
  }

  lemma Reserves(x: Env, g: Gate, id: CallId)
    requires id in g.calls && g.calls[id].stage == Claimed && g.calls[id].held == {}
    ensures var c := g.calls[id];
      var h := After(x, g, Reserving(id));
      var r := c.request;
      if x.shares(c.first) != Share(r.online.0, r.groupKey) || x.shares(c.second) != Share(r.online.1, r.groupKey) then
        h == With(g, id, c.(stage := Done(Failed(ShareMismatch))), g.busy, g.entered)
      else if c.first in g.busy then
        h == With(g, id, c.(stage := Done(Failed(ShareBusy))), g.busy, g.entered)
      else if c.first == c.second || c.second in g.busy then
        h == With(g, id, c.(stage := Leaving(Failed(ShareBusy)), held := {c.first}), g.busy + {c.first}, g.entered)
      else
        h == With(g, id, c.(stage := HasBoth, held := {c.first, c.second}), g.busy + {c.first, c.second}, g.entered)
  {
    ThreeSteps(x, g, Match(id), ReserveFirst(id), ReserveSecond(id));
    var g1 := Next(x, g, Match(id));
    var g2 := Next(x, g1, ReserveFirst(id));
    var g3 := Next(x, g2, ReserveSecond(id));
    hide After;
    var c := g.calls[id];
    assert g1 == With(g, id, g1.calls[id], g.busy, g.entered);
    assert g2 == With(g, id, g2.calls[id], g2.busy, g.entered);
    assert g3 == With(g, id, g3.calls[id], g3.busy, g.entered);
  }

  lemma Drops(x: Env, g: Gate, id: CallId)
    requires id in g.calls && g.calls[id].stage.Leaving? && g.calls[id].held <= {g.calls[id].first, g.calls[id].second}
    ensures var c := g.calls[id];
      After(x, g, Dropping(id)) ==
        With(g, id, c.(stage := Done(c.stage.outcome), held := {}), g.busy - c.held, g.entered)
  {
    ThreeSteps(x, g, Drop(id), Drop(id), Drop(id));
    var c := g.calls[id];
    var g1 := Next(x, g, Drop(id));
    var g2 := Next(x, g1, Drop(id));
    var g3 := Next(x, g2, Drop(id));
    hide After;
    assert g1 == With(g, id, g1.calls[id], g1.busy, g.entered);
    assert g2 == With(g, id, g2.calls[id], g2.busy, g.entered);
    assert g3 == With(g, id, g3.calls[id], g3.busy, g.entered);
    assert g1.busy == (g.busy - c.held) + g1.calls[id].held * g.busy;
    assert g2.busy == (g.busy - c.held) + g2.calls[id].held * g.busy;
    assert g3.calls[id] == c.(stage := Done(c.stage.outcome), held := {});
  }

  lemma Begins(x: Env, g: Gate, id: CallId, c: Call, cancelled: bool, w: Write)
    requires id !in g.calls && c.stage == Started && c.held == {}
    ensures var h := After(x, g, Start(id, c, cancelled, w));
      var (store, reply) := ClaimScoped(x.context, g.store, c.request.namespace, c.request.session, w);
      && h.busy == g.busy && h.entered == g.entered && id in h.calls && h.calls == g.calls[id := h.calls[id]]
      && h.calls[id] == c.(stage := h.calls[id].stage)
      && if c.cancellable && cancelled then h.store == g.store && h.calls[id].stage == Done(Failed(Interrupted))
         else if c.request.expiresAt <= c.now then h.store == g.store && h.calls[id].stage == Done(Failed(Expired))
         else h.store == store && h.calls[id].stage == AfterClaim(reply)
  {
    hide ClaimScoped, AfterClaim, Granted;
    var begin := Begin(id, c.request, c.first, c.second, c.now, c.cancellable);
    ThreeSteps(x, g, begin, Admit(id, cancelled), Step.Claim(id, w));
    var g1 := Next(x, g, begin);
    var g2 := Next(x, g1, Admit(id, cancelled));
    hide After;
    assert g1 == With(g, id, c, g.busy, g.entered);
    assert g2 == With(g, id, g2.calls[id], g.busy, g.entered);
  }

  lemma Runs(x: Env, g: Gate, id: CallId, p: Preparation, native: Outcome, since: bool)
    requires id in g.calls && g.calls[id].stage == HasBoth
    ensures var c := g.calls[id];
      var error := PreparationError(c.request, c.now, p);
      After(x, g, Running(id, p, native, since)) ==
        With(g, id, c.(stage := Leaving(Reported(c, if error.Some? then Failed(error.value) else native, since))),
             g.busy, if error.None? then g.entered + [Key(x, c.request)] else g.entered)
  {
    hide PreparationError, Key;
    TwoSteps(x, g, Enter(id, p, since), Finish(id, native, since));
    var g1 := Next(x, g, Enter(id, p, since));
    var g2 := Next(x, g1, Finish(id, native, since));
    hide After;
    assert g1 == With(g, id, g1.calls[id], g.busy, g1.entered);
    assert g2 == With(g, id, g2.calls[id], g.busy, g1.entered);
  }

  /** Steps of a call that is done, or that is not at their stage. */
  lemma {:induction false} Stutters(x: Env, g: Gate, id: CallId, steps: seq<Step>)
    requires id in g.calls && forall s <- steps :: IsLocal(s) && s.id == id
    requires g.calls[id].stage.Done? || (g.calls[id].stage.Leaving? && forall s <- steps :: !s.Drop?)
    ensures After(x, g, steps) == g
  {
    hide Local;
    if steps != [] {
      Stutters(x, g, id, steps[..|steps| - 1]);
      NotItsStage(x, g, steps[|steps| - 1]);
    }
  }

  lemma NotItsStage(x: Env, g: Gate, s: Step)
    requires IsLocal(s) && s.id in g.calls
    requires g.calls[s.id].stage.Done? || (g.calls[s.id].stage.Leaving? && !s.Drop?)
    ensures Next(x, g, s) == g
  {
    assert g.calls[s.id := g.calls[s.id]] == g.calls;
  }

  lemma Ends(x: Env, h: Gate, id: CallId, p: Preparation, native: Outcome, since: bool)
    requires id in h.calls && h.calls[id].held <= {h.calls[id].first, h.calls[id].second}
    requires h.calls[id].stage == HasBoth || h.calls[id].stage.Leaving? || h.calls[id].stage.Done?
    ensures var c := h.calls[id];
      var error := PreparationError(c.request, c.now, p);
      After(x, h, Running(id, p, native, since) + Dropping(id)) ==
        if c.stage.Done? then h
        else if c.stage.Leaving? then
          With(h, id, c.(stage := Done(c.stage.outcome), held := {}), h.busy - c.held, h.entered)
        else
          With(h, id, c.(stage := Done(Reported(c, if error.Some? then Failed(error.value) else native, since)),
                         held := {}),
               h.busy - c.held, if error.None? then h.entered + [Key(x, c.request)] else h.entered)
  {
    hide After, PreparationError, Key, Next, Running, Dropping, IsLocal, Reported;
    AfterAppend(x, h, Running(id, p, native, since), Dropping(id));
    if h.calls[id].stage == HasBoth {
      Runs(x, h, id, p, native, since);
    } else {
      Stutters(x, h, id, Running(id, p, native, since));
    }
    var k := After(x, h, Running(id, p, native, since));
    if k.calls[id].stage.Leaving? {
      Drops(x, k, id);
    } else {
      Stutters(x, k, id, Dropping(id));
    }
  }

  /** The rest of a call whose claim was granted. */
  lemma Continues(x: Env, g: Gate, id: CallId, p: Preparation, native: Outcome, since: bool)
    requires id in g.calls && g.calls[id].stage == Claimed && g.calls[id].held == {}
    ensures var c := g.calls[id];
      var r := c.request;
      var (outcome, entered) :=
        Alone(false, false, ClaimOk,
              x.shares(c.first) == Share(r.online.0, r.groupKey) && x.shares(c.second) == Share(r.online.1, r.groupKey),
              c.first != c.second && c.first !in g.busy && c.second !in g.busy, PreparationError(r, c.now, p), native,
              c.cancellable && since);
      After(x, g, Rest(id, p, native, since)) ==
        With(g, id, c.(stage := Done(outcome)), g.busy, if entered then g.entered + [Key(x, r)] else g.entered)
  {
    hide After, PreparationError, Key, Next, Reserving, Running, Dropping, IsLocal;
    var reserve, run, drop := Reserving(id), Running(id, p, native, since), Dropping(id);
    assert reserve + run + drop == reserve + (run + drop);
    AfterAppend(x, g, reserve, run + drop);
    Reserves(x, g, id);
    var h := After(x, g, reserve);
    Ends(x, h, id, p, native, since);
    assert (g.busy + h.calls[id].held) - h.calls[id].held == g.busy - h.calls[id].held;
  }

  /** The machine refines the sequential account: the steps of one call, taken without interference from any
      state, give the answer, the claim, the flags and the entry that the call in place gives. */
  lemma AloneAgrees(x: Env, g: Gate, id: CallId, c: Call, cancelled: bool, w: Write, p: Preparation, native: Outcome,
                    since: bool)
    requires id !in g.calls && c.stage == Started && c.held == {}
    ensures var h := After(x, g, Start(id, c, cancelled, w) + Rest(id, p, native, since));
      var r := c.request;
      var (store, reply) := ClaimScoped(x.context, g.store, r.namespace, r.session, w);
      var (outcome, entered) :=
        Alone(c.cancellable && cancelled, r.expiresAt <= c.now, reply,
              x.shares(c.first) == Share(r.online.0, r.groupKey) && x.shares(c.second) == Share(r.online.1, r.groupKey),
              c.first != c.second && c.first !in g.busy && c.second !in g.busy, PreparationError(r, c.now, p), native,
              c.cancellable && since);
      && h.calls == g.calls[id := c.(stage := Done(outcome))] && h.busy == g.busy
      && h.entered == (if entered then g.entered + [Key(x, r)] else g.entered)
      && h.store == if (c.cancellable && cancelled) || r.expiresAt <= c.now then g.store else store
  {
    hide After, PreparationError, Key, Next, ClaimScoped, Start, Rest;
    AfterAppend(x, g, Start(id, c, cancelled, w), Rest(id, p, native, since));
    Begins(x, g, id, c, cancelled, w);
    var h := After(x, g, Start(id, c, cancelled, w));
    if h.calls[id].stage == Claimed {
      Continues(x, h, id, p, native, since);
    } else {
      Stutters(x, h, id, Rest(id, p, native, since));
    }
  }
}
