/** The transcript-chained frame transport between two signing parties.

    Each direction is a byte stream in order. A send writes one frame: a header naming both parties, the
    sequence number, the session binding and the running transcript digest, then the payload. A receive
    checks the header against its own transcript. A read or write that fails may have moved any number of
    bytes; an endpoint whose failed call moved bytes is not used again. */
module Transport {
  import opened Bytes
  import opened Options

  type Payload = Vec<byte>

  const MAX_FRAMES: nat := 4096
  const MAX_FRAME_BYTES: nat := 4 * 1024 * 1024
  const MAGIC: seq<byte> := [67, 65, 84, 67, 77, 80, 48, 49]

  /** The hash and the domain prefix of the transcript. */
  datatype Suite = Suite(sha256: Hash, domain: seq<byte>)

  datatype Failure = Failed | FrameTooLarge | Timeout | Terminated

  datatype Transcript = Transcript(sequence: u32, digest: Digest)

  datatype Endpoint = Endpoint(local: byte, peer: byte, binding: Digest, send: Transcript, receive: Transcript)

  /** A failure of the stream after moving some bytes. */
  datatype Fault = NoFault | Fault(bytes: nat, failure: Failure)

  /** `Exhausted` is the refusal to advance past the last sequence number. */
  datatype Sending = Sent | NotSent(failure: Failure) | SendExhausted

  datatype Receiving = Got(payload: Payload) | NotReceived(failure: Failure) | ReceiveExhausted

  // ---------------------------------------------------------------- transcripts and frames

  function Opening(x: Suite, binding: Digest, sender: byte, receiver: byte): Transcript {
    Transcript(0, x.sha256(x.domain + binding + [sender, receiver]))
  }

  function Advanced(x: Suite, t: Transcript, payload: seq<byte>): Transcript
    requires t.sequence < MAX_FRAMES
  {
    Transcript(t.sequence + 1, x.sha256(x.domain + t.digest + BigEndian(t.sequence, 4) + x.sha256(payload)))
  }

  function Header(local: byte, peer: byte, binding: Digest, t: Transcript, length: nat): (r: seq<byte>)
    ensures |r| == 82
  {
    MAGIC + [local, peer] + BigEndian(t.sequence, 4) + binding + t.digest + BigEndian(length, 4)
  }

  function Frame(local: byte, peer: byte, binding: Digest, t: Transcript, payload: Payload): (r: seq<byte>)
    ensures |r| == 82 + |payload|
  {
    Header(local, peer, binding, t, |payload|) + payload
  }

  /** The receiver's check of a header, and the payload length it announces. */
  predicate HeaderAccepted(e: Endpoint, header: seq<byte>)
    requires |header| == 82
  {
    && header[..8] == MAGIC && header[8] == e.peer && header[9] == e.local
    && FromBigEndian(header[10..14]) == e.receive.sequence && header[14..46] == e.binding
    && header[46..78] == e.receive.digest && FromBigEndian(header[78..82]) <= MAX_FRAME_BYTES
  }

  lemma Field<T>(a: seq<T>, b: seq<T>, c: seq<T>)
    ensures (a + b + c)[|a|..|a| + |b|] == b
  {}

  /** A header is accepted exactly when it was written for this reader at this point of the transcript. */
  lemma HeaderReads(e: Endpoint, local: byte, peer: byte, binding: Digest, t: Transcript, length: nat)
    requires length <= MAX_FRAME_BYTES
    ensures var header := Header(local, peer, binding, t, length);
      && FromBigEndian(header[78..82]) == length
      && (HeaderAccepted(e, header) <==> local == e.peer && peer == e.local && binding == e.binding && t == e.receive)
  {
    hide BigEndian, FromBigEndian;
    Powers();
    BigEndianReads(t.sequence, 4);
    BigEndianReads(length, 4);
    var sequence, size := BigEndian(t.sequence, 4), BigEndian(length, 4);
    var header := Header(local, peer, binding, t, length);
    assert header[..8] == MAGIC && header[8] == local && header[9] == peer;
    assert header[10..14] == sequence by { Field(MAGIC + [local, peer], sequence, binding + t.digest + size); }
    assert header[14..46] == binding;
    assert header[46..78] == t.digest;
    assert header[78..82] == size;
  }

  // ---------------------------------------------------------------- one call

  /** `send`: the new endpoint, the bytes put on the stream and the answer. */
  function SendOn(x: Suite, e: Endpoint, receiver: nat, payload: Payload,
                  fault: Fault): (Endpoint, seq<byte>, Sending) {
    var frame := Frame(e.local, e.peer, e.binding, e.send, payload);
    if |payload| > MAX_FRAME_BYTES then (e, [], NotSent(FrameTooLarge))
    else if receiver != e.peer then (e, [], NotSent(Failed))
    else if fault.Fault? then
      (e, if fault.bytes <= |frame| then frame[..fault.bytes] else frame, NotSent(fault.failure))
    else if e.send.sequence >= MAX_FRAMES then (e, frame, SendExhausted)
    else (Endpoint(e.local, e.peer, e.binding, Advanced(x, e.send, payload), e.receive), frame, Sent)
  }

  function Least(a: nat, b: nat): nat {
    if a <= b then a else b
  }

  /** `receive`: the new endpoint, how many bytes were taken off the stream and the answer. */
  function ReceiveOn(x: Suite, e: Endpoint, sender: nat, wire: seq<byte>, onHeader: Fault,
                     onPayload: Fault): (Endpoint, nat, Receiving) {
    if sender != e.peer then (e, 0, NotReceived(Failed))
    else if onHeader.Fault? then (e, Least(onHeader.bytes, |wire|), NotReceived(onHeader.failure))
    else if |wire| < 82 then (e, |wire|, NotReceived(Timeout))
    else if !HeaderAccepted(e, wire[..82]) then (e, 82, NotReceived(Failed))
    else ReceivePayload(x, e, wire, FromBigEndian(wire[..82][78..82]), onPayload)
  }

  function ReceivePayload(x: Suite, e: Endpoint, wire: seq<byte>, length: nat, fault: Fault): (Endpoint, nat, Receiving)
    requires |wire| >= 82 && length <= MAX_FRAME_BYTES
  {
    if fault.Fault? then (e, 82 + Least(fault.bytes, |wire| - 82), NotReceived(fault.failure))
    else if |wire| < 82 + length then (e, |wire|, NotReceived(Timeout))
    else if e.receive.sequence >= MAX_FRAMES then (e, 82 + length, ReceiveExhausted)
    else (Endpoint(e.local, e.peer, e.binding, e.send, Advanced(x, e.receive, wire[82..82 + length])),
          82 + length, Got(wire[82..82 + length]))
  }

  class AuthenticatedSessionTransport {
    const suite: Suite
    const local: byte
    const peer: byte
    const binding: Digest
    var sendState: Transcript
    var receiveState: Transcript

    ghost function View(): Endpoint
      reads this
    {
      Endpoint(local, peer, binding, sendState, receiveState)
    }

    constructor (suite: Suite, local: byte, peer: byte, binding: Digest)
      ensures this.suite == suite && View() == Fresh(suite, local, peer, binding)
    {
      this.suite, this.local, this.peer, this.binding := suite, local, peer, binding;
      sendState := Opening(suite, binding, local, peer);
      receiveState := Opening(suite, binding, peer, local);
    }

    method Send(receiver: nat, payload: Payload, fault: Fault) returns (put: seq<byte>, r: Sending)
      modifies this
      ensures (View(), put, r) == SendOn(suite, old(View()), receiver, payload, fault)
    {
      if receiver != peer || |payload| > MAX_FRAME_BYTES {
        return [], NotSent(if |payload| > MAX_FRAME_BYTES then FrameTooLarge else Failed);
      }
      var encoded := Frame(local, peer, binding, sendState, payload);
      if fault.Fault? {
        return if fault.bytes <= |encoded| then encoded[..fault.bytes] else encoded, NotSent(fault.failure);
      }
      if sendState.sequence >= MAX_FRAMES {
        return encoded, SendExhausted;
      }
      sendState := Advanced(suite, sendState, payload);
      return encoded, Sent;
    }

    method Receive(sender: nat, wire: seq<byte>, onHeader: Fault, onPayload: Fault) returns (taken: nat, r: Receiving)
      modifies this
      ensures (View(), taken, r) == ReceiveOn(suite, old(View()), sender, wire, onHeader, onPayload)
    {
      hide FromBigEndian;
      if sender != peer {
        return 0, NotReceived(Failed);
      }
      if onHeader.Fault? || |wire| < 82 {
        return if onHeader.Fault? then Least(onHeader.bytes, |wire|) else |wire|,
               NotReceived(if onHeader.Fault? then onHeader.failure else Timeout);
      }
      var header := wire[..82];
      assert header[78..82] == wire[78..82];
      var length := FromBigEndian(header[78..82]);
      if header[..8] != MAGIC || header[8] != peer || header[9] != local
         || FromBigEndian(header[10..14]) != receiveState.sequence || header[14..46] != binding
         || header[46..78] != receiveState.digest || length > MAX_FRAME_BYTES
      {
        return 82, NotReceived(Failed);
      }
      if onPayload.Fault? {
        return 82 + Least(onPayload.bytes, |wire| - 82), NotReceived(onPayload.failure);
      }
      if |wire| < 82 + length {
        return |wire|, NotReceived(Timeout);
      }
      var payload := wire[82..82 + length];
      if receiveState.sequence >= MAX_FRAMES {
        return 82 + length, ReceiveExhausted;
      }
      receiveState := Advanced(suite, receiveState, payload);
      return 82 + length, Got(payload);
    }
  }

  // ---------------------------------------------------------------- two endpoints

  function Fresh(x: Suite, local: byte, peer: byte, binding: Digest): Endpoint {
    Endpoint(local, peer, binding, Opening(x, binding, local, peer), Opening(x, binding, peer, local))
  }

  /** One side: its endpoint, whether it is still used, and the bytes it put on the wire that the other
      side has not taken. The rest is history: payloads whose frame was put whole, payloads whose send
      succeeded, payloads received, and how many frames were taken whole. */
  datatype Half = Half(
    end: Endpoint, alive: bool, out: seq<byte>, written: seq<Payload>, sent: seq<Payload>, delivered: seq<Payload>,
    taken: nat)

  datatype System = System(left: Half, right: Half)

  datatype Step =
    | Send(byLeft: bool, party: nat, payload: Payload, fault: Fault)
    | Receive(byLeft: bool, party: nat, onHeader: Fault, onPayload: Fault)

  function Sends(x: Suite, a: Half, s: Step): Half
    requires s.Send?
  {
    var (e, put, r) := SendOn(x, a.end, s.party, s.payload, s.fault);
    if !a.alive then a
    else Half(e, r.Sent? || r.SendExhausted? || put == [], a.out + put,
              if |put| == 82 + |s.payload| then a.written + [s.payload] else a.written,
              if r.Sent? then a.sent + [s.payload] else a.sent, a.delivered, a.taken)
  }

  /** The receiver `a` after taking from `wire`, and what is left there. */
  function Receives(x: Suite, a: Half, wire: seq<byte>, s: Step): (Half, seq<byte>)
    requires s.Receive?
  {
    var (e, n, r) := ReceiveOn(x, a.end, s.party, wire, s.onHeader, s.onPayload);
    if !a.alive then (a, wire)
    else (Half(e, r.Got? || r.ReceiveExhausted? || n == 0, a.out, a.written, a.sent,
               if r.Got? then a.delivered + [r.payload] else a.delivered,
               if r.Got? || r.ReceiveExhausted? then a.taken + 1 else a.taken),
          if n <= |wire| then wire[n..] else [])
  }

  function WithOut(a: Half, out: seq<byte>): Half {
    Half(a.end, a.alive, out, a.written, a.sent, a.delivered, a.taken)
  }

  function Next(x: Suite, s: System, step: Step): System {
    if step.Send? then
      if step.byLeft then System(Sends(x, s.left, step), s.right) else System(s.left, Sends(x, s.right, step))
    else if step.byLeft then
      System(Receives(x, s.left, s.right.out, step).0, WithOut(s.right, Receives(x, s.left, s.right.out, step).1))
    else
      System(WithOut(s.left, Receives(x, s.right, s.left.out, step).1), Receives(x, s.right, s.left.out, step).0)
  }

  function After(x: Suite, s: System, steps: seq<Step>): System {
    if steps == [] then s else Next(x, After(x, s, steps[..|steps| - 1]), steps[|steps| - 1])
  }

  function Idle(e: Endpoint): Half {
    Half(e, true, [], [], [], [], 0)
  }

  function Initial(x: Suite, a: byte, b: byte, binding: Digest): System {
    System(Idle(Fresh(x, a, b, binding)), Idle(Fresh(x, b, a, binding)))
  }

  // ---------------------------------------------------------------- one direction

  /** The transcript after a list of payloads. */
  function Chain(x: Suite, binding: Digest, a: byte, b: byte, payloads: seq<Payload>): (t: Transcript)
    requires |payloads| <= MAX_FRAMES
    ensures t.sequence == |payloads|
  {
    if payloads == [] then Opening(x, binding, a, b)
    else Advanced(x, Chain(x, binding, a, b, payloads[..|payloads| - 1]), payloads[|payloads| - 1])
  }

  /** The transcript with which frame `i` is written; the last number repeats. */
  function At(x: Suite, binding: Digest, a: byte, b: byte, payloads: seq<Payload>, i: nat): Transcript
    requires i <= |payloads|
  {
    Chain(x, binding, a, b, payloads[..Least(i, MAX_FRAMES)])
  }

  /** The bytes of the frames from number `i` on. */
  function Frames(x: Suite, binding: Digest, a: byte, b: byte, payloads: seq<Payload>, i: nat): seq<byte>
    requires i <= |payloads|
    decreases |payloads| - i
  {
    if i == |payloads| then []
    else Frame(a, b, binding, At(x, binding, a, b, payloads, i), payloads[i])
         + Frames(x, binding, a, b, payloads, i + 1)
  }

  lemma {:induction false} FramesAppend(x: Suite, binding: Digest, a: byte, b: byte, payloads: seq<Payload>, p: Payload,
                                        i: nat)
    requires i <= |payloads|
    ensures Frames(x, binding, a, b, payloads + [p], i) ==
      Frames(x, binding, a, b, payloads, i) + Frame(a, b, binding, At(x, binding, a, b, payloads, |payloads|), p)
    decreases |payloads| - i
  {
    hide Frame, Chain;
    var longer := payloads + [p];
    assert longer[..Least(i, MAX_FRAMES)] == payloads[..Least(i, MAX_FRAMES)];
    if i < |payloads| {
      FramesAppend(x, binding, a, b, payloads, p, i + 1);
    } else {
      assert Frames(x, binding, a, b, longer, i + 1) == [];
    }
  }

  /** The end of the wire after a broken write: part of a frame, never all of it. */
  predicate Part(a: byte, b: byte, binding: Digest, t: Transcript, p: Payload, tail: seq<byte>) {
    |p| <= MAX_FRAME_BYTES && |tail| < 82 + |p| && tail == Frame(a, b, binding, t, p)[..|tail|]
  }

  ghost predicate Tail(a: byte, b: byte, binding: Digest, t: Transcript, alive: bool, tail: seq<byte>) {
    tail == [] || (!alive && exists p :: Part(a, b, binding, t, p, tail))
  }

  /** What the sender has put on the wire, as history. */
  predicate Wrote(x: Suite, s: Half) {
    && |s.sent| <= MAX_FRAMES && s.sent <= s.written
    && s.end.send == Chain(x, s.end.binding, s.end.local, s.end.peer, s.sent)
    && (|s.sent| < MAX_FRAMES ==> |s.written| <= |s.sent| + (if s.alive then 0 else 1))
    && (forall p <- s.written :: |p| <= MAX_FRAME_BYTES)
  }

  /** Everything received was written, in order. */
  predicate Prefix(x: Suite, s: Half, r: Half) {
    && r.end.binding == s.end.binding && r.end.local == s.end.peer && r.end.peer == s.end.local
    && r.taken <= |s.written| && r.delivered == s.written[..Least(r.taken, MAX_FRAMES)]
    && r.end.receive == Chain(x, s.end.binding, s.end.local, s.end.peer, r.delivered)
  }

  ghost predicate WireIs(x: Suite, s: Half, taken: nat, wire: seq<byte>, tail: seq<byte>) {
    && taken <= |s.written| && Tail(s.end.local, s.end.peer, s.end.binding, s.end.send, s.alive, tail)
    && wire == Frames(x, s.end.binding, s.end.local, s.end.peer, s.written, taken) + tail
  }

  /** The state of one direction, from sender `s` to receiver `r`. */
  ghost predicate Linked(x: Suite, s: Half, r: Half) {
    Wrote(x, s) && Prefix(x, s, r) && (r.alive ==> exists tail :: WireIs(x, s, r.taken, s.out, tail))
  }

  /** A sender that is still in use has its last frame's transcript where its own stands. */
  lemma NextFrame(x: Suite, s: Half)
    requires Wrote(x, s) && s.alive
    ensures At(x, s.end.binding, s.end.local, s.end.peer, s.written, |s.written|) == s.end.send
  {
    hide Chain;
    assert s.written[..Least(|s.written|, MAX_FRAMES)] == s.sent;
  }

  lemma WireGrows(x: Suite, s: Half, taken: nat, tail: seq<byte>, p: Payload, s': Half)
    requires Wrote(x, s) && s.alive && WireIs(x, s, taken, s.out, tail)
    requires s'.written == s.written + [p] && s'.end.local == s.end.local && s'.end.peer == s.end.peer
    requires s'.end.binding == s.end.binding
    requires s'.out == s.out + Frame(s.end.local, s.end.peer, s.end.binding, s.end.send, p)
    ensures WireIs(x, s', taken, s'.out, [])
  {
    hide Frame, Frames, Chain, At;
    NextFrame(x, s);
    FramesAppend(x, s.end.binding, s.end.local, s.end.peer, s.written, p, taken);
  }

  lemma WireBreaks(x: Suite, s: Half, taken: nat, tail: seq<byte>, p: Payload, n: nat, s': Half)
    requires s.alive && WireIs(x, s, taken, s.out, tail) && |p| <= MAX_FRAME_BYTES && n < 82 + |p|
    requires s'.written == s.written && s'.end == s.end && !s'.alive
    requires s'.out == s.out + Frame(s.end.local, s.end.peer, s.end.binding, s.end.send, p)[..n]
    ensures exists t :: WireIs(x, s', taken, s'.out, t)
  {
    hide Frame, Frames;
    var part := Frame(s.end.local, s.end.peer, s.end.binding, s.end.send, p)[..n];
    assert Part(s.end.local, s.end.peer, s.end.binding, s.end.send, p, part);
    assert WireIs(x, s', taken, s'.out, part);
  }

  /** A send leaves the wire in shape. */
  lemma SendWire(x: Suite, s: Half, taken: nat, tail: seq<byte>, step: Step)
    requires Wrote(x, s) && WireIs(x, s, taken, s.out, tail) && step.Send?
    ensures exists t :: WireIs(x, Sends(x, s, step), taken, Sends(x, s, step).out, t)
  {
    hide Frame, Frames, Advanced, At, Tail, Chain;
    var s' := Sends(x, s, step);
    var (e, put, answer) := SendOn(x, s.end, step.party, step.payload, step.fault);
    if s.alive && put != [] {
      var frame := Frame(s.end.local, s.end.peer, s.end.binding, s.end.send, step.payload);
      assert put == frame[..|put|];
      if |put| == |frame| {
        assert frame[..|put|] == frame;
        WireGrows(x, s, taken, tail, step.payload, s');
      } else {
        WireBreaks(x, s, taken, tail, step.payload, |put|, s');
      }
    } else {
      assert s.out + [] == s.out && s' == s;
    }
  }

  lemma SendLinked(x: Suite, s: Half, r: Half, step: Step)
    requires Linked(x, s, r) && step.Send?
    ensures Linked(x, Sends(x, s, step), r)
  {
    hide Wrote, Prefix, WireIs, Sends;
    SendWrote(x, s, step);
    SendPrefix(x, s, r, step);
    if r.alive {
      var tail :| WireIs(x, s, r.taken, s.out, tail);
      SendWire(x, s, r.taken, tail, step);
    }
  }

  lemma SendWrote(x: Suite, s: Half, step: Step)
    requires Wrote(x, s) && step.Send?
    ensures Wrote(x, Sends(x, s, step))
  {
    hide Frame, Advanced;
    assert (s.sent + [step.payload])[..|s.sent|] == s.sent;
  }

  lemma SendPrefix(x: Suite, s: Half, r: Half, step: Step)
    requires Prefix(x, s, r) && step.Send?
    ensures Prefix(x, Sends(x, s, step), r)
  {
    hide Frame, Advanced, Chain;
  }

  /** What a receive finds: the next frame, or nothing it can finish. */
  lemma Found(x: Suite, s: Half, r: Half, wire: seq<byte>, tail: seq<byte>, step: Step)
    requires Wrote(x, s) && Prefix(x, s, r) && WireIs(x, s, r.taken, wire, tail) && step.Receive?
    ensures var (e, n, answer) := ReceiveOn(x, r.end, step.party, wire, step.onHeader, step.onPayload);
      answer.Got? || answer.ReceiveExhausted? ==>
        && r.taken < |s.written| && n == 82 + |s.written[r.taken]| && (answer.Got? <==> r.taken < MAX_FRAMES)
        && (answer.Got? ==> answer.payload == s.written[r.taken])
        && n <= |wire| && wire[n..] == Frames(x, s.end.binding, s.end.local, s.end.peer, s.written, r.taken + 1) + tail
  {
    hide Chain, Advanced, FromBigEndian, ReceiveOn, Frame, Frames, Tail, WireIs;
    WholeFrame(x, r.end, step.party, wire, step.onHeader, step.onPayload);
    var (e, n, answer) := ReceiveOn(x, r.end, step.party, wire, step.onHeader, step.onPayload);
    if answer.Got? || answer.ReceiveExhausted? {
      WireFirst(x, s, r.end, r.taken, wire, tail);
    }
  }

  /** What an answer other than a failure says of the wire. */
  lemma WholeFrame(x: Suite, e: Endpoint, sender: nat, wire: seq<byte>, onHeader: Fault, onPayload: Fault)
    ensures var (e', n, answer) := ReceiveOn(x, e, sender, wire, onHeader, onPayload);
      answer.Got? || answer.ReceiveExhausted? ==>
        && 82 <= n <= |wire| && n == 82 + FromBigEndian(wire[..82][78..82])
        && (answer.Got? <==> e.receive.sequence < MAX_FRAMES) && (answer.Got? ==> answer.payload == wire[82..n])
  {
    hide FromBigEndian, Advanced;
  }

  /** The wire starts with the next frame written, or with less than a frame. */
  lemma WireFirst(x: Suite, s: Half, r: Endpoint, taken: nat, wire: seq<byte>, tail: seq<byte>)
    requires Wrote(x, s) && WireIs(x, s, taken, wire, tail) && |wire| >= 82
    requires |wire| >= 82 + FromBigEndian(wire[..82][78..82])
    ensures taken < |s.written| && FromBigEndian(wire[..82][78..82]) == |s.written[taken]|
    ensures var n := 82 + |s.written[taken]|;
      n <= |wire| && wire[82..n] == s.written[taken]
      && wire[n..] == Frames(x, s.end.binding, s.end.local, s.end.peer, s.written, taken + 1) + tail
  {
    hide Chain, Advanced, FromBigEndian, Frame, At;
    if taken < |s.written| {
      var t := At(x, s.end.binding, s.end.local, s.end.peer, s.written, taken);
      var rest := Frames(x, s.end.binding, s.end.local, s.end.peer, s.written, taken + 1);
      FrameFirst(r, s.end, t, s.written[taken], wire, rest + tail);
    } else {
      assert wire == tail;
      var p :| Part(s.end.local, s.end.peer, s.end.binding, s.end.send, p, tail);
      PartFirst(r, s.end, s.end.send, p, wire);
      assert false;
    }
  }

  lemma FrameFirst(r: Endpoint, s: Endpoint, t: Transcript, p: Payload, wire: seq<byte>, rest: seq<byte>)
    requires |p| <= MAX_FRAME_BYTES && wire == Frame(s.local, s.peer, s.binding, t, p) + rest
    ensures |wire| >= 82 + |p| && FromBigEndian(wire[..82][78..82]) == |p| && wire[82..82 + |p|] == p
    ensures wire[82 + |p|..] == rest
  {
    hide HeaderAccepted, FromBigEndian;
    var header := Header(s.local, s.peer, s.binding, t, |p|);
    hide Header;
    assert wire[..82] == header;
    HeaderReads(r, s.local, s.peer, s.binding, t, |p|);
  }

  lemma PartFirst(r: Endpoint, s: Endpoint, t: Transcript, p: Payload, wire: seq<byte>)
    requires Part(s.local, s.peer, s.binding, t, p, wire) && |wire| >= 82
    ensures FromBigEndian(wire[..82][78..82]) == |p|
  {
    hide HeaderAccepted, FromBigEndian, Header;
    assert wire[..82] == Header(s.local, s.peer, s.binding, t, |p|);
    HeaderReads(r, s.local, s.peer, s.binding, t, |p|);
  }

  lemma ReceiveLinked(x: Suite, s: Half, r: Half, step: Step)
    requires Linked(x, s, r) && step.Receive?
    ensures var (r', left) := Receives(x, r, s.out, step);
      Linked(x, WithOut(s, left), r')
  {
    hide Advanced, Chain, Prefix, WireIs, ReceiveOn;
    if r.alive {
      var tail :| WireIs(x, s, r.taken, s.out, tail);
      ReceivePrefix(x, s, r, tail, step);
      ReceiveWire(x, s, r, tail, step);
    } else {
      NotReading(x, s, r);
    }
  }

  lemma ChainNext(x: Suite, binding: Digest, a: byte, b: byte, payloads: seq<Payload>, i: nat)
    requires i < |payloads| && i < MAX_FRAMES
    ensures Chain(x, binding, a, b, payloads[..i + 1]) ==
      Advanced(x, Chain(x, binding, a, b, payloads[..i]), payloads[i])
  {
    hide Advanced;
    assert payloads[..i + 1][..i] == payloads[..i];
  }

  lemma NotReading(x: Suite, s: Half, r: Half)
    requires Prefix(x, s, r) && !r.alive
    ensures Prefix(x, WithOut(s, s.out), r)
  {}

  lemma ReceivePrefix(x: Suite, s: Half, r: Half, tail: seq<byte>, step: Step)
    requires Wrote(x, s) && Prefix(x, s, r) && r.alive && WireIs(x, s, r.taken, s.out, tail) && step.Receive?
    ensures var (r', left) := Receives(x, r, s.out, step);
      Prefix(x, WithOut(s, left), r')
  {
    hide Advanced, Chain, Wrote, WireIs, ReceiveOn;
    Found(x, s, r, s.out, tail, step);
    NoNews(x, r.end, step.party, s.out, step.onHeader, step.onPayload);
    if r.taken < |s.written| && r.taken < MAX_FRAMES {
      ChainNext(x, s.end.binding, s.end.local, s.end.peer, s.written, r.taken);
      assert s.written[..r.taken + 1] == s.written[..r.taken] + [s.written[r.taken]];
    }
  }

  lemma ReceiveWire(x: Suite, s: Half, r: Half, tail: seq<byte>, step: Step)
    requires Wrote(x, s) && Prefix(x, s, r) && r.alive && WireIs(x, s, r.taken, s.out, tail) && step.Receive?
    ensures var (r', left) := Receives(x, r, s.out, step);
      r'.alive ==> WireIs(x, WithOut(s, left), r'.taken, left, tail)
  {
    hide Advanced, Chain, Wrote, Prefix, Frames, Tail, ReceiveOn;
    Found(x, s, r, s.out, tail, step);
    assert s.out[0..] == s.out;
  }

  /** A failed receive leaves the endpoint as it was; a successful one advances its transcript. */
  lemma NoNews(x: Suite, e: Endpoint, sender: nat, wire: seq<byte>, onHeader: Fault, onPayload: Fault)
    ensures var (e', n, answer) := ReceiveOn(x, e, sender, wire, onHeader, onPayload);
      && e'.local == e.local && e'.peer == e.peer && e'.binding == e.binding && e'.send == e.send
      && (!answer.Got? ==> e' == e)
      && (answer.Got? ==> e.receive.sequence < MAX_FRAMES && e'.receive == Advanced(x, e.receive, answer.payload))
  {
    hide FromBigEndian, Advanced, HeaderAccepted;
  }

  /** What a call does at one end leaves the other direction linked. */
  lemma OtherDirection(x: Suite, s: Half, r: Half, step: Step)
    ensures step.Send? && Linked(x, s, r) ==> Linked(x, s, Sends(x, r, step))
    ensures step.Receive? && Linked(x, s, r) ==>
      Linked(x, Receives(x, s, r.out, step).0, WithOut(r, Receives(x, s, r.out, step).1))
  {
    hide Frames, Frame, ReceiveOn, Chain, Advanced;
    if step.Receive? && Linked(x, s, r) {
      NoNews(x, s.end, step.party, r.out, step.onHeader, step.onPayload);
      var s' := Receives(x, s, r.out, step).0;
      if r.alive {
        var tail :| WireIs(x, s, r.taken, s.out, tail);
        assert WireIs(x, s', r.taken, s'.out, tail);
      }
    }
  }

  lemma StepLinked(x: Suite, s: System, step: Step)
    requires Linked(x, s.left, s.right) && Linked(x, s.right, s.left)
    ensures var t := Next(x, s, step);
      Linked(x, t.left, t.right) && Linked(x, t.right, t.left)
  {
    hide Linked, Sends, Receives;
    if step.byLeft {
      OtherDirection(x, if step.Send? then s.right else s.left, if step.Send? then s.left else s.right, step);
      if step.Send? { SendLinked(x, s.left, s.right, step); } else { ReceiveLinked(x, s.right, s.left, step); }
    } else {
      OtherDirection(x, if step.Send? then s.left else s.right, if step.Send? then s.right else s.left, step);
      if step.Send? { SendLinked(x, s.right, s.left, step); } else { ReceiveLinked(x, s.left, s.right, step); }
    }
  }

  lemma IdleLinked(x: Suite, a: byte, b: byte, binding: Digest)
    ensures Linked(x, Idle(Fresh(x, a, b, binding)), Idle(Fresh(x, b, a, binding)))
  {
    var s := Idle(Fresh(x, a, b, binding));
    assert WireIs(x, s, 0, s.out, []);
  }

  lemma {:induction false} RunLinked(x: Suite, a: byte, b: byte, binding: Digest, steps: seq<Step>)
    ensures var s := After(x, Initial(x, a, b, binding), steps);
      Linked(x, s.left, s.right) && Linked(x, s.right, s.left)
  {
    hide Linked, Next, Idle, Fresh;
    if steps == [] {
      IdleLinked(x, a, b, binding);
      IdleLinked(x, b, a, binding);
    } else {
      RunLinked(x, a, b, binding, steps[..|steps| - 1]);
      StepLinked(x, After(x, Initial(x, a, b, binding), steps[..|steps| - 1]), steps[|steps| - 1]);
    }
  }

  // ---------------------------------------------------------------- every run

  /** What has arrived from `s` at `r`: at most the limit, a prefix of what was successfully sent unless
      the one send that failed had already put its whole frame, and equal counts mean equal transcripts. */
  predicate InOrder(s: Half, r: Half) {
    && |r.delivered| <= MAX_FRAMES && |s.sent| <= MAX_FRAMES
    && (r.delivered <= s.sent || (Lost(s) && !s.alive && r.delivered == s.written && |s.written| == |s.sent| + 1))
    && s.sent <= s.written
    && (|s.sent| == |r.delivered| ==> s.sent == r.delivered && s.end.send == r.end.receive)
    && s.end.send.sequence == |s.sent| && r.end.receive.sequence == |r.delivered|
  }

  lemma LinkedInOrder(x: Suite, s: Half, r: Half)
    requires Linked(x, s, r)
    ensures InOrder(s, r)
  {
    hide Tail, Frames, WireIs;
  }

  /** In every interleaving of the two ends' calls, both directions deliver in order. */
  lemma DeliversInOrder(x: Suite, a: byte, b: byte, binding: Digest, steps: seq<Step>)
    ensures var s := After(x, Initial(x, a, b, binding), steps);
      InOrder(s.left, s.right) && InOrder(s.right, s.left)
  {
    hide Linked, InOrder;
    RunLinked(x, a, b, binding, steps);
    var s := After(x, Initial(x, a, b, binding), steps);
    LinkedInOrder(x, s.left, s.right);
    LinkedInOrder(x, s.right, s.left);
  }

  /** A payload sent at the limit is put on the wire but never delivered: only the first 4096 frames are. */
  lemma LimitFrameNeverDelivered(x: Suite, a: byte, b: byte, binding: Digest, steps: seq<Step>)
    ensures var s := After(x, Initial(x, a, b, binding), steps);
      && s.right.taken <= |s.left.written| && s.left.taken <= |s.right.written|
      && s.right.delivered == s.left.written[..Least(s.right.taken, MAX_FRAMES)]
      && s.left.delivered == s.right.written[..Least(s.left.taken, MAX_FRAMES)]
      && s.left.sent <= s.left.written && s.right.sent <= s.right.written
  {
    RunLinked(x, a, b, binding, steps);
  }

  // ---------------------------------------------------------------- when delivery is a prefix of the sends

  function Sender(s: System, toRight: bool): Half {
    if toRight then s.left else s.right
  }

  function Receiver(s: System, toRight: bool): Half {
    if toRight then s.right else s.left
  }

  /** One direction has only delivered what was successfully sent. */
  predicate PrefixNow(s: System, toRight: bool) {
    Receiver(s, toRight).delivered <= Sender(s, toRight).sent
  }

  /** A frame was put whole although its send failed. */
  predicate Lost(h: Half) {
    |h.sent| < MAX_FRAMES && |h.written| > |h.sent|
  }

  /** The write reports a failure after it has put the whole frame. */
  predicate PutsAll(step: Step) {
    step.Send? && step.fault.Fault? && step.fault.bytes >= 82 + |step.payload|
  }

  predicate Clean(steps: seq<Step>) {
    forall step <- steps :: !PutsAll(step)
  }

  /** Such a write by `h`, in use and below the limit, of a frame that may be sent. */
  predicate Loses(h: Half, byLeft: bool, step: Step) {
    && PutsAll(step) && step.byLeft == byLeft && h.alive && step.party == h.end.peer
    && |step.payload| <= MAX_FRAME_BYTES && h.end.send.sequence < MAX_FRAMES
  }

  ghost predicate BothLinked(x: Suite, s: System) {
    Linked(x, s.left, s.right) && Linked(x, s.right, s.left)
  }

  lemma SidesLinked(x: Suite, s: System, toRight: bool)
    requires BothLinked(x, s)
    ensures Linked(x, Sender(s, toRight), Receiver(s, toRight)) && InOrder(Sender(s, toRight), Receiver(s, toRight))
  {
    hide Linked, InOrder;
    LinkedInOrder(x, Sender(s, toRight), Receiver(s, toRight));
  }

  /** A step by the sender's side loses a frame, or leaves things lost or not as they were. */
  lemma StepLoses(x: Suite, s: System, step: Step, toRight: bool)
    requires BothLinked(x, s)
    ensures Lost(Sender(Next(x, s, step), toRight)) <==>
      Lost(Sender(s, toRight)) || Loses(Sender(s, toRight), toRight, step)
  {
    hide ReceiveOn, Frame, Chain, Advanced, Frames, Tail, WireIs;
    SidesLinked(x, s, toRight);
  }

  /** At step `i` of a run this side loses a frame. */
  predicate LostAt(x: Suite, s: System, steps: seq<Step>, toRight: bool, i: nat) {
    i < |steps| && Loses(Sender(After(x, s, steps[..i]), toRight), toRight, steps[i])
  }

  /** Where a lost frame comes from: exactly one kind of step in the schedule. */
  lemma {:induction false} LostExactly(x: Suite, a: byte, b: byte, binding: Digest, steps: seq<Step>, toRight: bool)
    ensures var start := Initial(x, a, b, binding);
      Lost(Sender(After(x, start, steps), toRight)) <==> exists i: nat :: LostAt(x, start, steps, toRight, i)
  {
    hide Next, Lost, Loses, Initial, LostAt;
    var start := Initial(x, a, b, binding);
    if steps == [] {
      NothingSentYet(x, a, b, binding, toRight);
    } else {
      var shorter := steps[..|steps| - 1];
      LostExactly(x, a, b, binding, shorter, toRight);
      RunLinked(x, a, b, binding, shorter);
      StepLoses(x, After(x, start, shorter), steps[|steps| - 1], toRight);
      LostAtLonger(x, start, steps, toRight);
    }
  }

  lemma NothingSentYet(x: Suite, a: byte, b: byte, binding: Digest, toRight: bool)
    ensures !Lost(Sender(Initial(x, a, b, binding), toRight))
    ensures forall i: nat :: !LostAt(x, Initial(x, a, b, binding), [], toRight, i)
  {}

  lemma LostAtLonger(x: Suite, s: System, steps: seq<Step>, toRight: bool)
    requires steps != []
    ensures var n := |steps| - 1;
      (exists i: nat :: LostAt(x, s, steps, toRight, i)) <==>
        || (exists i: nat :: LostAt(x, s, steps[..n], toRight, i))
        || Loses(Sender(After(x, s, steps[..n]), toRight), toRight, steps[n])
  {
    hide After, Loses;
    var n := |steps| - 1;
    assert LostAt(x, s, steps, toRight, n) == Loses(Sender(After(x, s, steps[..n]), toRight), toRight, steps[n]);
    forall i: nat | i < n ensures LostAt(x, s, steps, toRight, i) == LostAt(x, s, steps[..n], toRight, i) {
      assert steps[..n][..i] == steps[..i];
    }
    if i: nat :| LostAt(x, s, steps[..n], toRight, i) {
      assert LostAt(x, s, steps, toRight, i);
    }
    if i: nat :| LostAt(x, s, steps, toRight, i) && i < n {
      assert LostAt(x, s, steps[..n], toRight, i);
    }
  }

  /** Delivery stays a prefix of the successful sends in every clean continuation. */
  ghost predicate PrefixKept(x: Suite, s: System, toRight: bool) {
    forall more :: Clean(more) ==> PrefixNow(After(x, s, more), toRight)
  }

  lemma {:induction false} ContinueLinked(x: Suite, s: System, more: seq<Step>)
    requires BothLinked(x, s)
    ensures BothLinked(x, After(x, s, more))
  {
    hide Next, Linked;
    if more != [] {
      ContinueLinked(x, s, more[..|more| - 1]);
      StepLinked(x, After(x, s, more[..|more| - 1]), more[|more| - 1]);
    }
  }

  /** With nothing lost, a clean continuation loses nothing. */
  lemma {:induction false} NothingLost(x: Suite, s: System, more: seq<Step>, toRight: bool)
    requires BothLinked(x, s) && !Lost(Sender(s, toRight)) && Clean(more)
    ensures !Lost(Sender(After(x, s, more), toRight)) && PrefixNow(After(x, s, more), toRight)
  {
    hide Next, BothLinked, Linked;
    if more != [] {
      NothingLost(x, s, more[..|more| - 1], toRight);
      ContinueLinked(x, s, more[..|more| - 1]);
      StepLoses(x, After(x, s, more[..|more| - 1]), more[|more| - 1], toRight);
    }
    ContinueLinked(x, s, more);
    SidesLinked(x, After(x, s, more), toRight);
  }

  /** A receiver out of use takes nothing more, and the sends only grow. */
  lemma {:induction false} NothingMore(x: Suite, s: System, more: seq<Step>, toRight: bool)
    requires !Receiver(s, toRight).alive
    ensures !Receiver(After(x, s, more), toRight).alive
    ensures Receiver(After(x, s, more), toRight).delivered == Receiver(s, toRight).delivered
    ensures Sender(s, toRight).sent <= Sender(After(x, s, more), toRight).sent
  {
    hide ReceiveOn, Frame, Advanced;
    if more != [] {
      NothingMore(x, s, more[..|more| - 1], toRight);
    }
  }

  /** A clean receive that takes the next whole frame. */
  function Take(s: System, toRight: bool): Step {
    Receive(!toRight, Receiver(s, toRight).end.peer, NoFault, NoFault)
  }

  lemma TakesNext(x: Suite, s: System, toRight: bool)
    requires BothLinked(x, s) && Receiver(s, toRight).alive
    requires Receiver(s, toRight).taken < |Sender(s, toRight).written| && Receiver(s, toRight).taken < MAX_FRAMES
    ensures var t := Next(x, s, Take(s, toRight));
      && Receiver(t, toRight).alive && Receiver(t, toRight).taken == Receiver(s, toRight).taken + 1
      && Sender(t, toRight).written == Sender(s, toRight).written && Sender(t, toRight).sent == Sender(s, toRight).sent
  {
    hide ReceiveOn, Linked;
    Arrives(x, Sender(s, toRight), Receiver(s, toRight), Receiver(s, toRight).end.peer);
  }

  /** A lost frame can still arrive: receives alone then deliver what was never successfully sent. */
  lemma {:induction false} LostIsDelivered(x: Suite, s: System, toRight: bool)
    requires BothLinked(x, s) && Lost(Sender(s, toRight)) && Receiver(s, toRight).alive
    ensures exists more :: Clean(more) && !PrefixNow(After(x, s, more), toRight)
    decreases |Sender(s, toRight).written| - Receiver(s, toRight).taken
  {
    hide Next, BothLinked, Linked;
    SidesLinked(x, s, toRight);
    LostFrames(x, s, toRight);
    if Receiver(s, toRight).taken == |Sender(s, toRight).written| {
      assert After(x, s, []) == s;
      assert Clean([]) && !PrefixNow(After(x, s, []), toRight);
    } else {
      var step := Take(s, toRight);
      TakesNext(x, s, toRight);
      ContinueLinked(x, s, [step]);
      AfterTwo(x, s, step, step);
      LostIsDelivered(x, Next(x, s, step), toRight);
      var more :| Clean(more) && !PrefixNow(After(x, Next(x, s, step), more), toRight);
      AfterFirst(x, s, step, more);
      assert Clean([step] + more) && !PrefixNow(After(x, s, [step] + more), toRight);
    }
  }

  /** With a frame lost, all frames fit under the limit, and once all are taken the prefix is broken. */
  lemma LostFrames(x: Suite, s: System, toRight: bool)
    requires BothLinked(x, s) && Lost(Sender(s, toRight))
    ensures |Sender(s, toRight).written| == |Sender(s, toRight).sent| + 1 <= MAX_FRAMES
    ensures Receiver(s, toRight).taken <= |Sender(s, toRight).written|
    ensures PrefixNow(s, toRight) <==> Receiver(s, toRight).taken < |Sender(s, toRight).written|
  {
    hide Chain, Frames, Tail, WireIs;
  }

  lemma {:induction false} AfterFirst(x: Suite, s: System, step: Step, more: seq<Step>)
    ensures After(x, s, [step] + more) == After(x, Next(x, s, step), more)
  {
    hide Next;
    if more == [] {
      AfterTwo(x, s, step, step);
      assert [step] + more == [step];
    } else {
      AfterFirst(x, s, step, more[..|more| - 1]);
      assert ([step] + more)[..|more|] == [step] + more[..|more| - 1];
    }
  }

  /** The exact condition, on every run and in both directions: delivery stays a prefix of the successful
      sends in every clean continuation if and only if no frame was lost, or the receiver went out of use
      before it took the lost frame. */
  lemma PrefixExactly(x: Suite, a: byte, b: byte, binding: Digest, steps: seq<Step>, toRight: bool)
    ensures var s := After(x, Initial(x, a, b, binding), steps);
      PrefixKept(x, s, toRight) <==>
        || !Lost(Sender(s, toRight))
        || (!Receiver(s, toRight).alive && Receiver(s, toRight).taken <= |Sender(s, toRight).sent|)
  {
    hide Next, After, Linked;
    RunLinked(x, a, b, binding, steps);
    PrefixExactlyFrom(x, After(x, Initial(x, a, b, binding), steps), toRight);
  }

  lemma PrefixExactlyFrom(x: Suite, s: System, toRight: bool)
    requires BothLinked(x, s)
    ensures PrefixKept(x, s, toRight) <==>
      || !Lost(Sender(s, toRight))
      || (!Receiver(s, toRight).alive && Receiver(s, toRight).taken <= |Sender(s, toRight).sent|)
  {
    hide Next, BothLinked, PrefixNow;
    if !Lost(Sender(s, toRight)) {
      forall more | Clean(more) ensures PrefixNow(After(x, s, more), toRight) { NothingLost(x, s, more, toRight); }
    } else {
      LostFrames(x, s, toRight);
      if Receiver(s, toRight).alive {
        LostIsDelivered(x, s, toRight);
      } else {
        StoppedReader(x, s, toRight);
      }
    }
  }

  lemma StoppedReader(x: Suite, s: System, toRight: bool)
    requires !Receiver(s, toRight).alive
    ensures PrefixKept(x, s, toRight) <==> PrefixNow(s, toRight)
  {
    hide Next;
    if PrefixNow(s, toRight) {
      forall more | Clean(more) ensures PrefixNow(After(x, s, more), toRight) { NothingMore(x, s, more, toRight); }
    } else {
      assert Clean([]) && After(x, s, []) == s;
    }
  }

  /** In particular, a run without such writes only delivers what was successfully sent. */
  lemma CleanPrefix(x: Suite, a: byte, b: byte, binding: Digest, steps: seq<Step>)
    requires Clean(steps)
    ensures var s := After(x, Initial(x, a, b, binding), steps);
      s.right.delivered <= s.left.sent && s.left.delivered <= s.right.sent
  {
    hide Next, Linked;
    IdleLinked(x, a, b, binding);
    IdleLinked(x, b, a, binding);
    NothingLost(x, Initial(x, a, b, binding), steps, true);
    NothingLost(x, Initial(x, a, b, binding), steps, false);
  }

  /** An input where it fails: a write puts a whole frame and then reports an error, so its send fails, yet
      its payload is delivered. */
  lemma FailedSendDelivered(x: Suite, a: byte, b: byte, binding: Digest, p: Payload, failure: Failure)
    requires |p| <= MAX_FRAME_BYTES
    ensures var lost := Send(true, b, p, Fault(82 + |p|, failure));
      var s := After(x, Initial(x, a, b, binding), [lost, Receive(false, a, NoFault, NoFault)]);
      s.left.sent == [] && s.right.delivered == [p]
  {
    hide ReceiveOn, Frame, Header, Advanced, Linked;
    var steps := [Send(true, b, p, Fault(82 + |p|, failure)), Receive(false, a, NoFault, NoFault)];
    var start := Initial(x, a, b, binding);
    AfterTwo(x, start, steps[0], steps[1]);
    var s := Next(x, start, steps[0]);
    var frame := Frame(a, b, binding, start.left.end.send, p);
    assert frame[..82 + |p|] == frame && [] + frame == frame && s.left.written == [p] && s.left.sent == [];
    RunLinked(x, a, b, binding, [steps[0]]);
    Arrives(x, s.left, s.right, a);
  }

  lemma AfterTwo(x: Suite, s: System, first: Step, second: Step)
    ensures After(x, s, [first]) == Next(x, s, first)
    ensures After(x, s, [first, second]) == Next(x, Next(x, s, first), second)
  {
    hide Next;
    assert [first][..0] == [] && [first, second][..1] == [first];
    assert After(x, s, [first]) == Next(x, After(x, s, []), first);
  }

  /** A frame that is whole on the wire is accepted by the next clean receive: nothing in order is refused. */
  lemma Arrives(x: Suite, s: Half, r: Half, party: nat)
    requires Linked(x, s, r) && r.alive && r.taken < |s.written| && r.taken < MAX_FRAMES && party == r.end.peer
    ensures ReceiveOn(x, r.end, party, s.out, NoFault, NoFault).2 == Got(s.written[r.taken])
  {
    hide Chain, Advanced, FromBigEndian, Frame, HeaderAccepted, Tail;
    var tail :| WireIs(x, s, r.taken, s.out, tail);
    var rest := Frames(x, s.end.binding, s.end.local, s.end.peer, s.written, r.taken + 1) + tail;
    FrameFirst(r.end, s.end, r.end.receive, s.written[r.taken], s.out, rest);
    HeaderFirst(r.end, s.end, s.written[r.taken], s.out, rest);
  }

  lemma HeaderFirst(r: Endpoint, s: Endpoint, p: Payload, wire: seq<byte>, rest: seq<byte>)
    requires |p| <= MAX_FRAME_BYTES && wire == Frame(s.local, s.peer, s.binding, r.receive, p) + rest
    requires r.local == s.peer && r.peer == s.local && r.binding == s.binding
    ensures HeaderAccepted(r, wire[..82])
  {
    hide Header, HeaderAccepted, FromBigEndian;
    assert wire[..82] == Header(s.local, s.peer, s.binding, r.receive, |p|);
    HeaderReads(r, s.local, s.peer, s.binding, r.receive, |p|);
  }

  /** On every run: the next whole frame below the limit is delivered by the next clean receive. */
  lemma NextFrameDelivered(x: Suite, a: byte, b: byte, binding: Digest, steps: seq<Step>)
    requires var s := After(x, Initial(x, a, b, binding), steps);
      s.right.alive && s.right.taken < |s.left.written| && s.right.taken < MAX_FRAMES
    ensures var s := After(x, Initial(x, a, b, binding), steps);
      Next(x, s, Receive(false, s.right.end.peer, NoFault, NoFault)).right.delivered ==
        s.right.delivered + [s.left.written[s.right.taken]]
  {
    hide ReceiveOn, Linked;
    RunLinked(x, a, b, binding, steps);
    var s := After(x, Initial(x, a, b, binding), steps);
    Arrives(x, s.left, s.right, s.right.end.peer);
  }

  // ---------------------------------------------------------------- polling

  /** One round of the cancel-aware receive: whether it is cancelled or past its deadline, whether this poll
      lasts to the deadline, what arrived before it, and how its reads go. */
  datatype Poll = Poll(cancelled: bool, late: bool, final: bool, arrived: seq<byte>, onHeader: Fault, onPayload: Fault)

  function Rest(wire: seq<byte>, n: nat): seq<byte> {
    if n <= |wire| then wire[n..] else []
  }

  /** `CancelAwareTransport::receive`: poll again after a timeout, until one lasts to the deadline. */
  function PolledReceive(x: Suite, e: Endpoint, sender: nat, wire: seq<byte>, polls: seq<Poll>)
    : (Endpoint, seq<byte>, Option<Receiving>)
    decreases |polls|
  {
    if polls == [] then (e, wire, None)
    else
      var p := polls[0];
      var w := wire + p.arrived;
      if p.cancelled then (e, w, Some(NotReceived(Terminated)))
      else if p.late then (e, w, Some(NotReceived(Timeout)))
      else
        var (e', n, answer) := ReceiveOn(x, e, sender, w, p.onHeader, p.onPayload);
        if answer == NotReceived(Timeout) && !p.final then PolledReceive(x, e', sender, Rest(w, n), polls[1..])
        else (e', Rest(w, n), Some(answer))
  }

  /** The polling loop. */
  method ReceivePolling(inner: AuthenticatedSessionTransport, sender: nat, wire: seq<byte>, polls: seq<Poll>)
    returns (left: seq<byte>, answer: Option<Receiving>)
    modifies inner
    ensures (inner.View(), left, answer) == PolledReceive(inner.suite, old(inner.View()), sender, wire, polls)
  {
    hide ReceiveOn;
    left := wire;
    for i := 0 to |polls|
      invariant PolledReceive(inner.suite, inner.View(), sender, left, polls[i..])
             == PolledReceive(inner.suite, old(inner.View()), sender, wire, polls)
    {
      assert polls[i..][0] == polls[i] && polls[i..][1..] == polls[i + 1..];
      left := left + polls[i].arrived;
      if polls[i].cancelled {
        return left, Some(NotReceived(Terminated));
      }
      if polls[i].late {
        return left, Some(NotReceived(Timeout));
      }
      var taken, r := inner.Receive(sender, left, polls[i].onHeader, polls[i].onPayload);
      left := Rest(left, taken);
      if !(r == NotReceived(Timeout) && !polls[i].final) {
        return left, Some(r);
      }
    }
    assert polls[|polls|..] == [];
    answer := None;
  }

  /** Everything that has arrived up to and with poll `k`. */
  function Arrivals(wire: seq<byte>, polls: seq<Poll>, k: nat): seq<byte>
    requires k <= |polls|
  {
    if k == 0 then wire else Arrivals(wire, polls, k - 1) + polls[k - 1].arrived
  }

  /** A poll that timed out, took nothing and is tried again. */
  predicate Idles(x: Suite, e: Endpoint, sender: nat, wire: seq<byte>, p: Poll) {
    var (e', n, answer) := ReceiveOn(x, e, sender, wire, p.onHeader, p.onPayload);
    !p.cancelled && !p.late && !p.final && answer == NotReceived(Timeout) && n == 0
  }

  /** Polls that took nothing are as if they had not been: the answer is that of the one receive after them,
      over all that has arrived. */
  lemma {:induction false} IdlePollsVanish(x: Suite, e: Endpoint, sender: nat, wire: seq<byte>, polls: seq<Poll>,
                                           k: nat)
    requires k <= |polls|
    requires forall i :: 0 <= i < k ==> Idles(x, e, sender, Arrivals(wire, polls, i + 1), polls[i])
    ensures PolledReceive(x, e, sender, wire, polls) ==
      PolledReceive(x, e, sender, Arrivals(wire, polls, k), polls[k..])
  {
    hide ReceiveOn;
    if k == 0 {
      assert polls[0..] == polls;
    } else {
      IdlePollsVanish(x, e, sender, wire, polls, k - 1);
      var w := Arrivals(wire, polls, k - 1);
      assert Idles(x, e, sender, Arrivals(wire, polls, (k - 1) + 1), polls[k - 1]);
      assert polls[k - 1..][0] == polls[k - 1] && polls[k - 1..][1..] == polls[k..];
      NoNews(x, e, sender, w + polls[k - 1].arrived, polls[k - 1].onHeader, polls[k - 1].onPayload);
      assert Rest(w + polls[k - 1].arrived, 0) == w + polls[k - 1].arrived;
    }
  }

  /** Exactly when a failed receive may be tried again: while both ends are in use, the wire still starts with
      the frame the receiver expects if and only if the failed receive took nothing. */
  lemma RetryExactly(x: Suite, s: Half, r: Half, sender: nat, onHeader: Fault, onPayload: Fault)
    requires Linked(x, s, r) && s.alive && r.alive
    requires ReceiveOn(x, r.end, sender, s.out, onHeader, onPayload).2.NotReceived?
    ensures var n := ReceiveOn(x, r.end, sender, s.out, onHeader, onPayload).1;
      (exists tail :: WireIs(x, s, r.taken, Rest(s.out, n), tail)) <==> n == 0
  {
    hide Frames, Wrote, Prefix, ReceiveOn;
    var n := ReceiveOn(x, r.end, sender, s.out, onHeader, onPayload).1;
    TakesAtMost(x, r.end, sender, s.out, onHeader, onPayload);
    var tail :| WireIs(x, s, r.taken, s.out, tail);
    assert tail == [] && s.out[0..] == s.out;
    if n == 0 {
      assert WireIs(x, s, r.taken, Rest(s.out, n), tail);
    }
  }

  lemma TakesAtMost(x: Suite, e: Endpoint, sender: nat, wire: seq<byte>, onHeader: Fault, onPayload: Fault)
    ensures ReceiveOn(x, e, sender, wire, onHeader, onPayload).1 <= |wire|
  {
    hide FromBigEndian, Advanced, HeaderAccepted;
  }

  // ---------------------------------------------------------------- different bindings

  /** One direction between ends that were given different bindings: nothing has been accepted. */
  ghost predicate Drifted(x: Suite, s: Half, r: Half) {
    && Wrote(x, s) && r.end.binding != s.end.binding && r.taken == 0 && r.delivered == []
    && (r.alive ==> exists tail :: WireIs(x, s, 0, s.out, tail))
  }

  /** What starts the wire is a header of the sender's, which a reader with another binding refuses. */
  lemma ForeignHeader(x: Suite, s: Half, r: Endpoint, wire: seq<byte>, tail: seq<byte>)
    requires Wrote(x, s) && WireIs(x, s, 0, wire, tail) && r.binding != s.end.binding && |wire| >= 82
    ensures !HeaderAccepted(r, wire[..82])
  {
    hide Chain, Advanced, HeaderAccepted, Header;
    if |s.written| > 0 {
      var t := At(x, s.end.binding, s.end.local, s.end.peer, s.written, 0);
      HeaderReads(r, s.end.local, s.end.peer, s.end.binding, t, |s.written[0]|);
      assert wire[..82] == Header(s.end.local, s.end.peer, s.end.binding, t, |s.written[0]|);
    } else {
      assert wire == tail;
      var p :| Part(s.end.local, s.end.peer, s.end.binding, s.end.send, p, tail);
      HeaderReads(r, s.end.local, s.end.peer, s.end.binding, s.end.send, |p|);
      assert wire[..82] == Header(s.end.local, s.end.peer, s.end.binding, s.end.send, |p|);
    }
  }

  lemma ReceiveDrifted(x: Suite, s: Half, r: Half, step: Step)
    requires Drifted(x, s, r) && step.Receive?
    ensures var (r', left) := Receives(x, r, s.out, step);
      Drifted(x, WithOut(s, left), r')
  {
    hide Advanced, Chain, Frames, Tail, HeaderAccepted, FromBigEndian;
    if r.alive {
      var tail :| WireIs(x, s, 0, s.out, tail);
      if |s.out| >= 82 {
        ForeignHeader(x, s, r.end, s.out, tail);
      }
      assert s.out[0..] == s.out;
      assert WireIs(x, WithOut(s, s.out), 0, s.out, tail);
    }
  }

  lemma SendDrifted(x: Suite, s: Half, r: Half, step: Step)
    requires Drifted(x, s, r) && step.Send?
    ensures Drifted(x, Sends(x, s, step), r)
  {
    hide Wrote, WireIs, Frame, Advanced;
    SendWrote(x, s, step);
    if r.alive {
      var tail :| WireIs(x, s, 0, s.out, tail);
      SendWire(x, s, 0, tail, step);
    }
  }

  lemma OtherDrifted(x: Suite, s: Half, r: Half, step: Step)
    ensures step.Send? && Drifted(x, s, r) ==> Drifted(x, s, Sends(x, r, step))
    ensures step.Receive? && Drifted(x, s, r) ==>
      Drifted(x, Receives(x, s, r.out, step).0, WithOut(r, Receives(x, s, r.out, step).1))
  {
    hide Frames, Frame, ReceiveOn, Chain, Advanced;
    if step.Receive? && Drifted(x, s, r) {
      NoNews(x, s.end, step.party, r.out, step.onHeader, step.onPayload);
      var s' := Receives(x, s, r.out, step).0;
      if r.alive {
        var tail :| WireIs(x, s, 0, s.out, tail);
        assert WireIs(x, s', 0, s'.out, tail);
      }
    }
  }

  lemma StepDrifted(x: Suite, s: System, step: Step)
    requires Drifted(x, s.left, s.right) && Drifted(x, s.right, s.left)
    ensures var t := Next(x, s, step);
      Drifted(x, t.left, t.right) && Drifted(x, t.right, t.left)
  {
    hide Drifted, Sends, Receives;
    var near, far := if step.byLeft then s.left else s.right, if step.byLeft then s.right else s.left;
    if step.Send? {
      SendDrifted(x, near, far, step);
      OtherDrifted(x, far, near, step);
    } else {
      ReceiveDrifted(x, far, near, step);
      OtherDrifted(x, near, far, step);
    }
  }

  lemma IdleDrifted(x: Suite, a: byte, b: byte, mine: Digest, yours: Digest)
    requires mine != yours
    ensures Drifted(x, Idle(Fresh(x, a, b, mine)), Idle(Fresh(x, b, a, yours)))
  {
    var s := Idle(Fresh(x, a, b, mine));
    assert WireIs(x, s, 0, s.out, []);
  }

  /** Ends with different bindings never accept anything from each other, on any run. */
  lemma {:induction false} NothingAcrossBindings(x: Suite, a: byte, b: byte, mine: Digest, yours: Digest,
                                                 steps: seq<Step>)
    requires mine != yours
    ensures var s := After(x, System(Idle(Fresh(x, a, b, mine)), Idle(Fresh(x, b, a, yours))), steps);
      && s.left.delivered == [] && s.right.delivered == []
      && Drifted(x, s.left, s.right) && Drifted(x, s.right, s.left)
  {
    hide Next, Idle, Fresh, Wrote, WireIs;
    var start := System(Idle(Fresh(x, a, b, mine)), Idle(Fresh(x, b, a, yours)));
    if steps == [] {
      IdleDrifted(x, a, b, mine, yours);
      IdleDrifted(x, b, a, yours, mine);
    } else {
      NothingAcrossBindings(x, a, b, mine, yours, steps[..|steps| - 1]);
      StepDrifted(x, After(x, start, steps[..|steps| - 1]), steps[|steps| - 1]);
    }
  }
}
