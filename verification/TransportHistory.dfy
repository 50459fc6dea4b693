/** What a transcript digest commits to: the session, the two parties and every payload before it. */
module TransportHistory {
  import opened Bytes
  import opened Transport

  /** Every string that is hashed on the way to a transcript. */
  ghost function Hashed(x: Suite, binding: Digest, a: byte, b: byte, payloads: seq<Payload>): set<seq<byte>>
    requires |payloads| <= MAX_FRAMES
  {
    if payloads == [] then {x.domain + binding + [a, b]}
    else
      var n := |payloads| - 1;
      var before := Chain(x, binding, a, b, payloads[..n]).digest;
      Hashed(x, binding, a, b, payloads[..n])
      + {payloads[n], x.domain + before + BigEndian(n, 4) + x.sha256(payloads[n])}
  }

  /** The hash sends no two of these strings to the same digest. */
  ghost predicate Separates(x: Suite, strings: set<seq<byte>>) {
    forall u, v :: u in strings && v in strings && x.sha256(u) == x.sha256(v) ==> u == v
  }

  lemma SameParts(domain: seq<byte>, d: Digest, e: Digest, i: seq<byte>, j: seq<byte>, u: Digest, v: Digest)
    requires |i| == |j| && domain + d + i + u == domain + e + j + v
    ensures d == e && i == j && u == v
  {
    var k, n := |domain|, |i|;
    assert (domain + d + i + u)[k..k + 32] == d && (domain + e + j + v)[k..k + 32] == e;
    assert (domain + d + i + u)[k + 32..k + 32 + n] == i && (domain + e + j + v)[k + 32..k + 32 + n] == j;
    assert (domain + d + i + u)[k + 32 + n..] == u && (domain + e + j + v)[k + 32 + n..] == v;
  }

  lemma SameOpening(x: Suite, c: Digest, a: byte, b: byte, c': Digest, a': byte, b': byte)
    requires Opening(x, c, a, b) == Opening(x, c', a', b')
    requires Separates(x, {x.domain + c + [a, b], x.domain + c' + [a', b']})
    ensures c == c' && a == a' && b == b'
  {
    var s, s' := x.domain + c + [a, b], x.domain + c' + [a', b'];
    var k := |x.domain|;
    assert s == s';
    assert s[k..k + 32] == c && s'[k..k + 32] == c' && s[k + 32] == a && s'[k + 32] == a';
    assert s[k + 33] == b && s'[k + 33] == b';
  }

  /** Equal transcripts come from one session binding, one pair of parties and one list of payloads. */
  lemma {:induction false} TranscriptIsHistory(x: Suite, c: Digest, a: byte, b: byte, ps: seq<Payload>, c': Digest,
                                               a': byte, b': byte, qs: seq<Payload>)
    requires |ps| <= MAX_FRAMES && |qs| <= MAX_FRAMES
    requires Separates(x, Hashed(x, c, a, b, ps) + Hashed(x, c', a', b', qs))
    ensures Chain(x, c, a, b, ps) == Chain(x, c', a', b', qs) <==> c == c' && a == a' && b == b' && ps == qs
  {
    hide BigEndian;
    if Chain(x, c, a, b, ps) == Chain(x, c', a', b', qs) {
      if ps == [] {
        SameOpening(x, c, a, b, c', a', b');
      } else {
        var n := |ps| - 1;
        var t, u := Chain(x, c, a, b, ps[..n]), Chain(x, c', a', b', qs[..n]);
        SameParts(x.domain, t.digest, u.digest, BigEndian(n, 4), BigEndian(n, 4), x.sha256(ps[n]), x.sha256(qs[n]));
        TranscriptIsHistory(x, c, a, b, ps[..n], c', a', b', qs[..n]);
        assert ps == ps[..n] + [ps[n]] && qs == qs[..n] + [qs[n]];
      }
    }
  }

  /** The reader accepts the header this frame starts with. */
  predicate Fits(r: Endpoint, frame: seq<byte>) {
    |frame| >= 82 && HeaderAccepted(r, frame[..82])
  }

  lemma FrameReads(r: Endpoint, a: byte, b: byte, c: Digest, t: Transcript, p: Payload)
    requires |p| <= MAX_FRAME_BYTES
    ensures Fits(r, Frame(a, b, c, t, p)) <==>
      a == r.peer && b == r.local && c == r.binding && t == r.receive
  {
    hide Header, HeaderAccepted, FromBigEndian;
    assert Frame(a, b, c, t, p)[..82] == Header(a, b, c, t, |p|);
    HeaderReads(r, a, b, c, t, |p|);
  }

  /** A frame's header is accepted exactly by a reader of the same session, addressed by this writer, whose
      whole received history is the writer's. */
  lemma {:induction false} HeaderFitsHistory(x: Suite, c: Digest, a: byte, b: byte, ps: seq<Payload>, p: Payload,
                                             r: Endpoint, qs: seq<Payload>)
    requires |ps| <= MAX_FRAMES && |qs| <= MAX_FRAMES && |p| <= MAX_FRAME_BYTES
    requires r.receive == Chain(x, r.binding, r.peer, r.local, qs)
    requires Separates(x, Hashed(x, c, a, b, ps) + Hashed(x, r.binding, r.peer, r.local, qs))
    ensures Fits(r, Frame(a, b, c, Chain(x, c, a, b, ps), p)) <==>
      c == r.binding && a == r.peer && b == r.local && ps == qs
  {
    hide Fits, Frame, Chain, Separates, Hashed;
    FrameReads(r, a, b, c, Chain(x, c, a, b, ps), p);
    TranscriptIsHistory(x, c, a, b, ps, r.binding, r.peer, r.local, qs);
  }

  /** No call changes who an endpoint is. */
  predicate Named(s: System, a: byte, b: byte, binding: Digest) {
    && s.left.end.local == s.right.end.peer == a && s.left.end.peer == s.right.end.local == b
    && s.left.end.binding == s.right.end.binding == binding
  }

  lemma NameKept(x: Suite, s: System, step: Step, a: byte, b: byte, binding: Digest)
    requires Named(s, a, b, binding)
    ensures Named(Next(x, s, step), a, b, binding)
  {
    hide ReceiveOn, Frame, Advanced;
    NoNews(x, s.left.end, step.party, s.right.out, if step.Receive? then step.onHeader else NoFault,
           if step.Receive? then step.onPayload else NoFault);
    NoNews(x, s.right.end, step.party, s.left.out, if step.Receive? then step.onHeader else NoFault,
           if step.Receive? then step.onPayload else NoFault);
  }

  lemma {:induction false} NamesKept(x: Suite, a: byte, b: byte, binding: Digest, steps: seq<Step>)
    ensures Named(After(x, Initial(x, a, b, binding), steps), a, b, binding)
  {
    hide Next;
    if steps != [] {
      NamesKept(x, a, b, binding, steps[..|steps| - 1]);
      NameKept(x, After(x, Initial(x, a, b, binding), steps[..|steps| - 1]), steps[|steps| - 1], a, b, binding);
    }
  }

  /** After any two runs, of one session or of two: what the first sender writes next is accepted by the second
      receiver if and only if they share binding and parties, and all that one received is all that the other
      sent. */
  lemma {:induction false} FrameFitsOneHistory(x: Suite, a: byte, b: byte, c: Digest, steps: seq<Step>, a': byte,
                                               b': byte, c': Digest, steps': seq<Step>, p: Payload)
    requires |p| <= MAX_FRAME_BYTES
    ensures var s, r := After(x, Initial(x, a, b, c), steps).left, After(x, Initial(x, a', b', c'), steps').right;
      && |s.sent| <= MAX_FRAMES && |r.delivered| <= MAX_FRAMES
      && (Separates(x, Hashed(x, c, a, b, s.sent) + Hashed(x, c', a', b', r.delivered)) ==>
            (Fits(r.end, SendOn(x, s.end, b, p, NoFault).1) <==>
               c == c' && a == a' && b == b' && s.sent == r.delivered))
  {
    hide Fits, Chain, Separates, Hashed, Frame, Advanced, After, WireIs;
    RunLinked(x, a, b, c, steps);
    RunLinked(x, a', b', c', steps');
    NamesKept(x, a, b, c, steps);
    NamesKept(x, a', b', c', steps');
    var s, r := After(x, Initial(x, a, b, c), steps).left, After(x, Initial(x, a', b', c'), steps').right;
    if Separates(x, Hashed(x, c, a, b, s.sent) + Hashed(x, c', a', b', r.delivered)) {
      HeaderFitsHistory(x, c, a, b, s.sent, p, r.end, r.delivered);
    }
  }
}
