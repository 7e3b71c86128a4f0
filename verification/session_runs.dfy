/** What holds of a session over every run, of the two ends of one handshake, and of messages between them. */
module SessionRuns {
  import opened Wrappers
  import opened Bytes
  import opened NodeIds
  import opened Contacts
  import opened Crypto
  import opened Chains
  import opened Ratchets
  import opened Packets
  import opened Sessions
  import A = Agreement
  import D = DhtProtocol

  // -------- one session over any run --------

  datatype Op =
    | Initiate(addr: SocketAddr, secret: Key32, write: bytes -> Result<bytes, string>)
    | Complete(finish: Result<HandshakeResult, string>, preSecret: Key32, completed: nat)
    | Accept(incoming: Result<bytes, string>)
    | Reply(replySecret: Key32, reply: bytes -> Result<(bytes, HandshakeResult), string>, replied: nat)
    | Send(body: bytes, nonce: Nonce)
    | Receive(payload: Payload, turnSecret: Key32, received: nat, victim: Option<Key32>)

  predicate Allowed(s: Suite, st: SessionState, op: Op) {
    match op
    case Complete(finish, _, _) => CanComplete(st, finish)
    case Reply(secret, reply, _) => CanReply(s, st, secret, reply)
    case _ => true
  }

  function Step(s: Suite, st: SessionState, op: Op): SessionState
    requires Allowed(s, st, op)
  {
    match op
    case Initiate(addr, secret, write) => InitiateHandshake(s, st, addr, secret, write).0
    case Complete(finish, secret, now) => CompleteHandshake(s, st, finish, secret, now).0
    case Accept(incoming) => AcceptHandshake(s, st, incoming).0
    case Reply(secret, reply, now) => ReplyHandshake(s, st, secret, reply, now).0
    case Send(body, nonce) => SendBytes(s, st, body, nonce).0
    case Receive(p, secret, now, victim) => ReceivePayload(s, st, p, secret, now, victim).0
  }

  ghost predicate AllowedRun(s: Suite, st: SessionState, ops: seq<Op>)
    decreases |ops|
  {
    ops == [] || (Allowed(s, st, ops[0]) && AllowedRun(s, Step(s, st, ops[0]), ops[1..]))
  }

  function Run(s: Suite, st: SessionState, ops: seq<Op>): SessionState
    requires AllowedRun(s, st, ops)
    decreases |ops|
  {
    if ops == [] then st else Run(s, Step(s, st, ops[0]), ops[1..])
  }

  /** Ratchet, handshake hash, remote static key and connection id are all set or all unset. */
  ghost predicate SetTogether(st: SessionState) {
    && st.handshakeHash.Some? == Established(st)
    && st.remoteStatic.Some? == Established(st)
    && st.connectionId.Some? == Established(st)
  }

  /** The peer showed a certificate for its Noise key, signed by the expected identity if there is one. */
  ghost predicate PeerShown(s: Suite, st: SessionState)
    requires st.remoteStatic.Some?
  {
    && st.peerCertificate.Some?
    && st.peerCertificate.value.x25519 == st.remoteStatic.value
    && (st.peerUserId.Some? ==> Verifies(s, st.peerUserId.value, st.peerCertificate.value))
  }

  ghost predicate SessionOk(s: Suite, st: SessionState) {
    && SetTogether(st)
    && !(st.initiator && st.responder)
    && (st.peerUserId.Some? ==> !st.responder)
    && (st.peerCertificate.Some? && st.responder ==> st.theirRatchetDhPub.Some?)
    && (Established(st) ==>
          && !st.initiator && !st.responder
          && PeerShown(s, st)
          && st.connectionId.value == s.connectionId(st.handshakeHash.value))
  }

  lemma CompleteKeepsSession(s: Suite, st: SessionState, finish: Result<HandshakeResult, string>, secret: Key32, now: nat)
    requires SessionOk(s, st) && CanComplete(st, finish)
    ensures SessionOk(s, CompleteHandshake(s, st, finish, secret, now).0)
  {
  }

  lemma AcceptKeepsSession(s: Suite, st: SessionState, incoming: Result<bytes, string>)
    requires SessionOk(s, st)
    ensures SessionOk(s, AcceptHandshake(s, st, incoming).0)
  {
  }

  lemma ReplyKeepsSession(s: Suite, st: SessionState, secret: Key32, reply: bytes -> Result<(bytes, HandshakeResult), string>, now: nat)
    requires SessionOk(s, st) && CanReply(s, st, secret, reply)
    ensures SessionOk(s, ReplyHandshake(s, st, secret, reply, now).0)
  {
  }

  lemma StepKeepsSession(s: Suite, st: SessionState, op: Op)
    requires SessionOk(s, st) && Allowed(s, st, op)
    ensures SessionOk(s, Step(s, st, op))
  {
    match op
    case Complete(finish, secret, now) => CompleteKeepsSession(s, st, finish, secret, now);
    case Accept(incoming) => AcceptKeepsSession(s, st, incoming);
    case Reply(secret, reply, now) => ReplyKeepsSession(s, st, secret, reply, now);
    case _ =>
  }

  lemma StepKeepsExpectation(s: Suite, st: SessionState, op: Op)
    requires Allowed(s, st, op)
    ensures Step(s, st, op).peerUserId == st.peerUserId
  {
    match op
    case Complete(finish, _, _) =>
    case Accept(_) =>
    case Reply(_, _, _) =>
    case _ =>
  }

  /** What a handshake settled. */
  function Settled(st: SessionState): (Option<Key32>, Option<Key32>, Option<Certificate>, Option<ConnectionId>, bool, bool) {
    (st.handshakeHash, st.remoteStatic, st.peerCertificate, st.connectionId, st.initiator, st.responder)
  }

  lemma StepAfterEstablished(s: Suite, st: SessionState, op: Op)
    requires SessionOk(s, st) && Allowed(s, st, op) && Established(st)
    ensures Established(Step(s, st, op)) && Settled(Step(s, st, op)) == Settled(st)
  {
  }

  lemma {:induction false} RunKeepsSession(s: Suite, st: SessionState, ops: seq<Op>)
    requires SessionOk(s, st) && AllowedRun(s, st, ops)
    ensures SessionOk(s, Run(s, st, ops)) && Run(s, st, ops).peerUserId == st.peerUserId
    ensures Established(st) ==> Established(Run(s, st, ops)) && Settled(Run(s, st, ops)) == Settled(st)
    decreases |ops|
  {
    if ops != [] {
      StepKeepsSession(s, st, ops[0]);
      StepKeepsExpectation(s, st, ops[0]);
      if Established(st) {
        StepAfterEstablished(s, st, ops[0]);
      }
      RunKeepsSession(s, Step(s, st, ops[0]), ops[1..]);
    }
  }

  /** Every established initiator has a certificate for its peer's Noise key, signed by the peer it meant to reach. */
  lemma EstablishedInitiator(s: Suite, cert: Certificate, master: Key32, peer: Key32, ops: seq<Op>)
    requires AllowedRun(s, NewInitiator(cert, master, peer), ops)
    ensures var st := Run(s, NewInitiator(cert, master, peer), ops);
            && SetTogether(st)
            && (Established(st) ==>
                  && st.peerCertificate.Some?
                  && st.peerCertificate.value.x25519 == st.remoteStatic.value
                  && Verifies(s, peer, st.peerCertificate.value))
  {
    RunKeepsSession(s, NewInitiator(cert, master, peer), ops);
  }

  /** Every established responder has a certificate for its peer's Noise key. */
  lemma EstablishedResponder(s: Suite, cert: Certificate, master: Key32, ops: seq<Op>)
    requires AllowedRun(s, NewResponder(cert, master), ops)
    ensures var st := Run(s, NewResponder(cert, master), ops);
            && SetTogether(st)
            && (Established(st) ==>
                  st.peerCertificate.Some? && st.peerCertificate.value.x25519 == st.remoteStatic.value)
  {
    RunKeepsSession(s, NewResponder(cert, master), ops);
  }

  // -------- the two ends of one handshake --------

  lemma CertificateRoundTrip(s: Suite, c: Certificate, rest: bytes)
    requires s.validKey(c.ed25519)
    ensures ReadCertificate(s, WriteCertificate(c) + rest) == Some(c)
  {
    var b := WriteCertificate(c) + rest;
    assert b[..32] == c.ed25519 && b[32..64] == c.x25519 && b[64..128] == c.signature;
  }

  /** The address as it arrives: without IPv6 flow label and scope. */
  function PlainAddr(a: SocketAddr): SocketAddr {
    match a
    case V4(_, _) => a
    case V6(ip, port, _, _) => V6(ip, port, 0, 0)
  }

  lemma FourParts(a: bytes, b: bytes, c: bytes, d: bytes)
    requires |a| == 32 && |b| == 128 && |c| == 32
    ensures var p := a + (b + (c + d)); p[..32] == a && p[32..160] == b && p[160..192] == c && p[192..] == d
  {
  }

  lemma FirstPayloadParts(s: Suite, secret: Key32, cert: Certificate, master: Key32, addr: SocketAddr)
    ensures var p := FirstPayload(s, secret, cert, master, addr);
            && |p| >= 199
            && p[..32] == s.publicKey(secret)
            && p[32..160] == WriteCertificate(cert)
            && p[160..192] == master
            && p[192..] == D.WriteAddress(addr)
  {
    FourParts(s.publicKey(secret), WriteCertificate(cert), master, D.WriteAddress(addr));
  }

  lemma AddressArrives(a: SocketAddr)
    ensures D.ReadAddress(D.WriteAddress(a)) == D.Parsed(PlainAddr(a), [])
  {
    assert D.WriteAddress(a) == D.WriteAddress(PlainAddr(a)) + [];
    D.ReadAddressBack(PlainAddr(a), []);
  }

  /** The responder reads exactly what the initiator wrote. */
  lemma AcceptReadsInitiate(s: Suite, st: SessionState, secret: Key32, cert: Certificate, master: Key32, addr: SocketAddr)
    requires st.responder && s.validKey(cert.ed25519)
    ensures AcceptHandshake(s, st, Success(FirstPayload(s, secret, cert, master, addr))) ==
              (st.(theirRatchetDhPub := Some(s.publicKey(secret)), peerCertificate := Some(cert),
                   peerMasterPub := Some(master), peerAddr := Some(PlainAddr(addr))),
               Success(()))
  {
    var p := FirstPayload(s, secret, cert, master, addr);
    FirstPayloadParts(s, secret, cert, master, addr);
    assert p[32..160] == WriteCertificate(cert) + [];
    CertificateRoundTrip(s, cert, []);
    AddressArrives(addr);
  }

  lemma CompleteReadsReply(s: Suite, secret: Key32, cert: Certificate)
    requires s.validKey(cert.ed25519)
    ensures var p := ReplyPayload(s, secret, cert);
            |p| == 160 && p[..32] == s.publicKey(secret) && ReadCertificate(s, p[32..]) == Some(cert)
  {
    var p := ReplyPayload(s, secret, cert);
    assert p[32..] == WriteCertificate(cert) + [];
    CertificateRoundTrip(s, cert, []);
  }

  /**
   * One handshake as both ends see it: certificates, keys and the hash Noise gives to both. The initiator
   * writes with secret a0 and pre-ratchets with a1; the responder replies with b0. `again` is the secret of a
   * second `initiate_handshake` before the reply, if there was one; Noise refuses to write twice.
   */
  datatype Exchange = Exchange(
    certI: Certificate, masterI: Key32, staticI: Key32, addr: SocketAddr, a0: Key32, again: Option<Key32>, a1: Key32, nowI: nat,
    certR: Certificate, masterR: Key32, staticR: Key32, b0: Key32, nowR: nat,
    expected: Key32, hash: Key32)

  /** The DH key the initiator holds when the reply comes. */
  function Kept(x: Exchange): Key32 {
    if x.again.Some? then x.again.value else x.a0
  }

  /** The responder after accepting and answering the initiator's message. */
  function ResponderEnd(s: Suite, x: Exchange): SessionState
    requires s.validKey(x.certI.ed25519)
  {
    AcceptReadsInitiate(s, NewResponder(x.certR, x.masterR), x.a0, x.certI, x.masterI, x.addr);
    var st := AcceptHandshake(s, NewResponder(x.certR, x.masterR), Success(FirstPayload(s, x.a0, x.certI, x.masterI, x.addr))).0;
    ReplyHandshake(s, st, x.b0, _ => Success(([], HandshakeResult(x.hash, x.staticI, []))), x.nowR).0
  }

  /** The initiator before the reply comes in. */
  function Waiting(s: Suite, x: Exchange): SessionState {
    var st := InitiateHandshake(s, NewInitiator(x.certI, x.masterI, x.expected), x.addr, x.a0, message => Success(message)).0;
    if x.again.Some?
    then InitiateHandshake(s, st, x.addr, x.again.value, _ => Failure("handshake initiation failed")).0
    else st
  }

  function InitiatorEnd(s: Suite, x: Exchange): SessionState {
    CompleteHandshake(s, Waiting(s, x), Success(HandshakeResult(x.hash, x.staticR, ReplyPayload(s, x.b0, x.certR))), x.a1, x.nowI).0
  }

  lemma ResponderEndIs(s: Suite, x: Exchange)
    requires s.validKey(x.certI.ed25519)
    ensures var st := ResponderEnd(s, x);
            && (Established(st) <==> x.certI.x25519 == x.staticI)
            && (Established(st) ==>
                  && st.ratchet == Some(New(s, RootKey(s, x.hash, x.b0, s.publicKey(x.a0)), x.b0, s.publicKey(x.a0), x.nowR))
                  && st.handshakeHash == Some(x.hash) && st.connectionId == Some(s.connectionId(x.hash)))
  {
    AcceptReadsInitiate(s, NewResponder(x.certR, x.masterR), x.a0, x.certI, x.masterI, x.addr);
  }

  lemma InitiatorEndIs(s: Suite, x: Exchange)
    requires s.validKey(x.certR.ed25519)
    ensures var st := InitiatorEnd(s, x);
            var pub := s.publicKey(x.b0);
            && (Established(st) <==> x.certR.x25519 == x.staticR && Verifies(s, x.expected, x.certR))
            && (Established(st) ==>
                  && st.ratchet == Some(SendStep(s, New(s, RootKey(s, x.hash, Kept(x), pub), Kept(x), pub, x.nowI), x.a1))
                  && st.handshakeHash == Some(x.hash) && st.connectionId == Some(s.connectionId(x.hash)))
  {
    CompleteReadsReply(s, x.b0, x.certR);
  }

  lemma SafetyInputSwaps(hash: Key32, x: Key32, y: Key32)
    ensures SafetyInput(hash, x, y) == SafetyInput(hash, y, x)
  {
    LexIsNumeric(x, y);
    LexIsNumeric(y, x);
    if FromBigEndian(x) == FromBigEndian(y) {
      FromBigEndianRoundTrip(x);
      FromBigEndianRoundTrip(y);
    }
  }

  lemma SameParts(h: Key32, a: Key32, b: Key32, k: Key32, c: Key32, d: Key32)
    requires h + a + b == k + c + d
    ensures h == k && a == c && b == d
  {
    var l, r := h + a + b, k + c + d;
    assert l[..32] == h && r[..32] == k && l[32..64] == a && r[32..64] == c && l[64..] == b && r[64..] == d;
  }

  ghost predicate SamePair(a: Key32, b: Key32, c: Key32, d: Key32) {
    (a == c && b == d) || (a == d && b == c)
  }

  lemma SamePairSameInput(h: Key32, a: Key32, b: Key32, c: Key32, d: Key32)
    requires SamePair(a, b, c, d)
    ensures SafetyInput(h, a, b) == SafetyInput(h, c, d)
  {
    SafetyInputSwaps(h, a, b);
  }

  lemma SameInputSamePair(h: Key32, a: Key32, b: Key32, k: Key32, c: Key32, d: Key32)
    requires SafetyInput(h, a, b) == SafetyInput(k, c, d)
    ensures h == k && SamePair(a, b, c, d)
  {
    var (a1, b1) := if LexLess(a, b) then (a, b) else (b, a);
    var (c1, d1) := if LexLess(c, d) then (c, d) else (d, c);
    SameParts(h, a1, b1, k, c1, d1);
  }

  /** What is digested pins everything: the handshake hash, and the two master keys, in either order. */
  lemma SafetyInputIff(h: Key32, a: Key32, b: Key32, k: Key32, c: Key32, d: Key32)
    ensures SafetyInput(h, a, b) == SafetyInput(k, c, d) <==> h == k && SamePair(a, b, c, d)
  {
    if SafetyInput(h, a, b) == SafetyInput(k, c, d) {
      SameInputSamePair(h, a, b, k, c, d);
    } else if h == k && SamePair(a, b, c, d) {
      SamePairSameInput(h, a, b, c, d);
    }
  }

  /**
   * Both ends of one handshake: each is established exactly when the certificates fit; then both have the same
   * connection id, and, if the initiator wrote its message once, the ratchets start with a common root from
   * which every run agrees. Their safety numbers, the initiator taking its peer for the identity it expected and
   * the responder for the one the payload claims, digest the same bytes if and only if the initiator expected
   * the responder's real identity.
   */
  lemma BothEndsAgree(s: Suite, x: Exchange)
    requires Lawful(s) && s.validKey(x.certI.ed25519) && s.validKey(x.certR.ed25519)
    ensures Established(ResponderEnd(s, x)) <==> x.certI.x25519 == x.staticI
    ensures Established(InitiatorEnd(s, x)) <==> x.certR.x25519 == x.staticR && Verifies(s, x.expected, x.certR)
    ensures var i, r := InitiatorEnd(s, x), ResponderEnd(s, x);
            Established(i) && Established(r) ==>
              && i.connectionId == r.connectionId
              && SafetyNumber(s, i, x.masterI, x.expected) == Some(s.digest(SafetyInput(x.hash, x.masterI, x.expected)))
              && SafetyNumber(s, r, x.masterR, x.masterI) == Some(s.digest(SafetyInput(x.hash, x.masterR, x.masterI)))
              && (SafetyInput(x.hash, x.masterI, x.expected) == SafetyInput(x.hash, x.masterR, x.masterI) <==> x.expected == x.masterR)
    ensures var i, r := InitiatorEnd(s, x), ResponderEnd(s, x);
            Established(i) && Established(r) && x.again.None? ==>
              var w := A.Start(s, RootKey(s, x.hash, x.a0, s.publicKey(x.b0)), x.a0, x.b0, x.a1, x.nowI, x.nowR);
              i.ratchet == Some(w.initiator) && r.ratchet == Some(w.responder)
  {
    ResponderEndIs(s, x);
    InitiatorEndIs(s, x);
    SafetyInputIff(x.hash, x.masterI, x.expected, x.hash, x.masterR, x.masterI);
    assert s.diffieHellman(x.a0, s.publicKey(x.b0)) == s.diffieHellman(x.b0, s.publicKey(x.a0));
  }

  /**
   * A second `initiate_handshake` replaces the DH key even though Noise refuses it and the first message is
   * already out. So the two ratchets start one step apart if and only if there was no second call, or it
   * happened to draw the same key.
   */
  lemma InStepIff(s: Suite, x: Exchange)
    requires Lawful(s) && CollisionFree(s) && s.validKey(x.certI.ed25519) && s.validKey(x.certR.ed25519)
    requires Established(InitiatorEnd(s, x)) && Established(ResponderEnd(s, x))
    ensures A.OneStepAhead(s, InitiatorEnd(s, x).ratchet.value, ResponderEnd(s, x).ratchet.value)
            <==> x.again.None? || s.publicKey(x.again.value) == s.publicKey(x.a0)
  {
    ResponderEndIs(s, x);
    InitiatorEndIs(s, x);
    var kept, pub := Kept(x), s.publicKey(x.b0);
    assert s.diffieHellman(x.a0, pub) == s.diffieHellman(x.b0, s.publicKey(x.a0));
    assert s.diffieHellman(kept, pub) == s.diffieHellman(x.b0, s.publicKey(kept));
    RootsEqualIff(s, x.hash, kept, x.a0, x.b0);
  }

  lemma RootsEqualIff(s: Suite, hash: Key32, a: Key32, b: Key32, c: Key32)
    requires Lawful(s) && CollisionFree(s)
    ensures RootKey(s, hash, a, s.publicKey(c)) == RootKey(s, hash, c, s.publicKey(b)) <==> s.publicKey(a) == s.publicKey(b)
  {
    assert s.diffieHellman(a, s.publicKey(c)) == s.diffieHellman(c, s.publicKey(a));
    assert s.diffieHellman(b, s.publicKey(c)) == s.diffieHellman(c, s.publicKey(b));
  }

  // -------- messages between the two ends --------

  lemma FrameReadBack(e: Envelope)
    requires e.number <= U32_MAX
    ensures ReadFrame(Frame(e)) == e
  {
    var b := Frame(e);
    assert b[..12] == e.nonce && b[12..44] == e.dhPub;
    assert b[44..48] == BigEndian(e.number, 4) && b[48..] == e.ciphertext;
    D.Widths();
    BigEndianRoundTrip(e.number, 4);
  }

  /** Sending through a session is a send step of the two-party system, carrying the master key before the body. */
  lemma SessionSends(s: Suite, w: A.World, p: A.Party, st: SessionState, body: bytes, nonce: Nonce)
    requires |w.keys| > 1 && st.ratchet == Some(A.Side(w, p)) && st.ourMasterPub.Some? && st.connectionId.Some?
    ensures var (st', r) := SendBytes(s, st, body, nonce);
            var w' := A.SendMessage(s, w, p, st.ourMasterPub.value + body, nonce);
            && st'.ratchet == Some(A.Side(w', p))
            && r == Success(MessagePayload(st.connectionId.value, Frame(w'.network[|w.network|].envelope)))
  {
  }

  lemma OpenedBody(pk: Key32, body: bytes)
    ensures Opened(Success(pk + body)) == Success((body, pk))
  {
    assert (pk + body)[..32] == pk && (pk + body)[32..] == body;
  }

  lemma ReceiveIsDelivery(s: Suite, w: A.World, m: A.Message, st: SessionState, conn: ConnectionId, secret: Key32, now: nat, victim: Option<Key32>)
    requires m.envelope.number <= U32_MAX && st.ratchet == Some(A.Side(w, A.Receiver(m)))
    ensures var (w', result) := A.DeliverMessage(s, w, m, secret, now, victim);
            ReceivePayload(s, st, MessagePayload(conn, Frame(m.envelope)), secret, now, victim) ==
              (st.(ratchet := Some(A.Side(w', A.Receiver(m)))), Opened(result))
  {
    FrameReadBack(m.envelope);
  }

  /**
   * Receiving through a session is a delivery step: it returns the body and the sender's master key exactly
   * for a first delivery in reach, after any run of the two-party system.
   */
  lemma SessionDelivers(s: Suite, shared: Key32, w: A.World, k: nat, st: SessionState, conn: ConnectionId, pk: Key32, body: bytes,
                        secret: Key32, now: nat, victim: Option<Key32>)
    requires Lawful(s) && A.Inv(s, shared, w) && A.Allowed(s, w, A.Deliver(k, secret, now, victim))
    requires st.ratchet == Some(A.Side(w, A.Receiver(w.network[k])))
    requires w.network[k].envelope.number <= U32_MAX && w.network[k].plaintext == pk + body
    ensures var (st', r) := ReceivePayload(s, st, MessagePayload(conn, Frame(w.network[k].envelope)), secret, now, victim);
            && (r.Success? <==> A.FirstInReach(w, w.network[k]))
            && (r.Success? ==> r.value == (body, pk))
            && st'.ratchet == Some(A.Side(A.DeliverMessage(s, w, w.network[k], secret, now, victim).0, A.Receiver(w.network[k])))
  {
    var m := w.network[k];
    A.DeliverAgrees(s, shared, w, k, secret, now, victim);
    ReceiveIsDelivery(s, w, m, st, conn, secret, now, victim);
    OpenedBody(pk, body);
  }
}
