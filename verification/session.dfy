/**
 * src/protocol/session.rs: the handshake state machine, the two ends of one handshake, and the message frame.
 * What the Noise library returns is an input of each step.
 */
module Sessions {
  import opened Wrappers
  import opened Bytes
  import opened NodeIds
  import opened Contacts
  import opened Crypto
  import opened Chains
  import opened Ratchets
  import opened Packets
  import D = DhtProtocol

  type Signature = s: bytes | |s| == 64 witness seq(64, _ => 0)

  // -------- device certificates --------

  datatype Certificate = Certificate(ed25519: Key32, x25519: Key32, signature: Signature)

  function WriteCertificate(c: Certificate): (b: bytes)
    ensures |b| == 128
  {
    c.ed25519 + c.x25519 + c.signature
  }

  function ReadCertificate(s: Suite, b: bytes): Option<Certificate>
    requires |b| >= 128
  {
    if s.validKey(b[..32]) then Some(Certificate(b[..32], b[32..64], b[64..128])) else None
  }

  predicate Verifies(s: Suite, identity: Key32, c: Certificate) {
    s.verify(identity, c.ed25519 + c.x25519, c.signature)
  }

  // -------- the state --------

  /** What a finished Noise handshake hands over. */
  datatype HandshakeResult = HandshakeResult(handshakeHash: Key32, remoteStatic: Key32, peerPayload: bytes)

  /** `initiator` and `responder` say whether a Noise state is still held. */
  datatype SessionState = SessionState(
    initiator: bool,
    responder: bool,
    ratchet: Option<RatchetState>,
    handshakeHash: Option<Key32>,
    remoteStatic: Option<Key32>,
    ourRatchetDhPriv: Option<Key32>,
    theirRatchetDhPub: Option<Key32>,
    ourCertificate: Certificate,
    ourMasterPub: Option<Key32>,
    peerCertificate: Option<Certificate>,
    peerUserId: Option<Key32>,
    peerMasterPub: Option<Key32>,
    peerAddr: Option<SocketAddr>,
    connectionId: Option<ConnectionId>)

  predicate Established(st: SessionState) {
    st.ratchet.Some?
  }

  function NewInitiator(cert: Certificate, master: Key32, peer: Key32): SessionState {
    SessionState(true, false, None, None, None, None, None, cert, Some(master), None, Some(peer), None, None, None)
  }

  function NewResponder(cert: Certificate, master: Key32): SessionState {
    SessionState(false, true, None, None, None, None, None, cert, Some(master), None, None, None, None, None)
  }

  function RootKey(s: Suite, hash: Key32, ours: Key32, theirs: Key32): Key32 {
    s.ratchetRoot(hash, s.diffieHellman(ours, theirs))
  }

  // -------- the handshake --------

  function FirstPayload(s: Suite, secret: Key32, cert: Certificate, master: Key32, addr: SocketAddr): bytes {
    s.publicKey(secret) + (WriteCertificate(cert) + (master + D.WriteAddress(addr)))
  }

  function ReplyPayload(s: Suite, secret: Key32, cert: Certificate): bytes {
    s.publicKey(secret) + WriteCertificate(cert)
  }

  /** `write` is what Noise makes of the first payload. */
  function InitiateHandshake(s: Suite, st: SessionState, addr: SocketAddr, secret: Key32, write: bytes -> Result<bytes, string>): (SessionState, Result<bytes, string>) {
    if st.ourMasterPub.None? then (st, Failure("master pubkey not set"))
    else
      var st' := st.(ourRatchetDhPriv := Some(secret));
      if !st.initiator then (st', Failure("Session is not an initiator"))
      else (st', write(FirstPayload(s, secret, st.ourCertificate, st.ourMasterPub.value, addr)))
  }

  /** Why the initiator turns the responder's half down, if it does. */
  function CompletionError(s: Suite, st: SessionState, h: HandshakeResult): Option<string> {
    if |h.peerPayload| < 160 then Some("handshake payload too short for certificate")
    else
      match ReadCertificate(s, h.peerPayload[32..])
      case None => Some("bad peer device certificate")
      case Some(cert) =>
        if cert.x25519 != h.remoteStatic then Some("peer certificate x25519 key doesn't match handshake")
        else if st.peerUserId.Some? && !Verifies(s, st.peerUserId.value, cert) then Some("peer device certificate signature invalid")
        else None
  }

  /** A result is only handed over after the first message was written, with the key in `ourRatchetDhPriv`. */
  predicate CanComplete(st: SessionState, finish: Result<HandshakeResult, string>) {
    st.initiator && finish.Success? ==> st.ourRatchetDhPriv.Some?
  }

  function CompleteHandshake(s: Suite, st: SessionState, finish: Result<HandshakeResult, string>, secret: Key32, now: nat): (SessionState, Result<(), string>)
    requires CanComplete(st, finish)
  {
    if !st.initiator then (st, Failure("Session is not an initiator"))
    else
      match finish
      case Failure(e) => (st.(initiator := false), Failure(e))
      case Success(h) =>
        var error := CompletionError(s, st, h);
        if error.Some? then (st.(initiator := false), Failure(error.value))
        else
          var priv, pub := st.ourRatchetDhPriv.value, h.peerPayload[..32];
          (st.(initiator := false,
               peerCertificate := ReadCertificate(s, h.peerPayload[32..]),
               ratchet := Some(SendStep(s, New(s, RootKey(s, h.handshakeHash, priv, pub), priv, pub, now), secret)),
               handshakeHash := Some(h.handshakeHash),
               remoteStatic := Some(h.remoteStatic),
               connectionId := Some(s.connectionId(h.handshakeHash))),
           Success(()))
  }

  /** `incoming` is what Noise makes of the first message. Fields read before an error stay set. */
  function AcceptHandshake(s: Suite, st: SessionState, incoming: Result<bytes, string>): (SessionState, Result<(), string>) {
    if !st.responder then (st, Failure("Session is not a responder"))
    else
      match incoming
      case Failure(e) => (st, Failure(e))
      case Success(p) =>
        if |p| < 199 then (st, Failure("handshake payload too short"))
        else
          var st1 := st.(theirRatchetDhPub := Some(p[..32]));
          match ReadCertificate(s, p[32..160])
          case None => (st1, Failure("bad peer device certificate"))
          case Some(cert) =>
            var st2 := st1.(peerCertificate := Some(cert), peerMasterPub := Some(p[160..192]));
            match D.ReadAddress(p[192..])
            case Parsed(addr, _) => (st2.(peerAddr := Some(addr)), Success(()))
            case _ => (st2, Failure("truncated or unknown addr"))
  }

  /** A reply follows an accepted first message. */
  predicate CanReply(s: Suite, st: SessionState, secret: Key32, reply: bytes -> Result<(bytes, HandshakeResult), string>) {
    st.responder && reply(ReplyPayload(s, secret, st.ourCertificate)).Success? ==>
      st.peerCertificate.Some? && st.theirRatchetDhPub.Some?
  }

  function ReplyHandshake(s: Suite, st: SessionState, secret: Key32, reply: bytes -> Result<(bytes, HandshakeResult), string>, now: nat): (SessionState, Result<bytes, string>)
    requires CanReply(s, st, secret, reply)
  {
    var st1 := st.(ourRatchetDhPriv := Some(secret));
    if !st.responder then (st1, Failure("Session is not a responder"))
    else
      match reply(ReplyPayload(s, secret, st.ourCertificate))
      case Failure(e) => (st1.(responder := false), Failure(e))
      case Success((outgoing, h)) =>
        if st.peerCertificate.value.x25519 != h.remoteStatic then
          (st1.(responder := false), Failure("peer certificate x25519 key doesn't match handshake"))
        else
          var pub := st.theirRatchetDhPub.value;
          (st1.(responder := false,
                ratchet := Some(New(s, RootKey(s, h.handshakeHash, secret, pub), secret, pub, now)),
                handshakeHash := Some(h.handshakeHash),
                remoteStatic := Some(h.remoteStatic),
                connectionId := Some(s.connectionId(h.handshakeHash))),
           Success(outgoing))
  }

  // -------- messages --------

  function Frame(e: Envelope): (b: bytes)
    ensures |b| == 48 + |e.ciphertext|
  {
    e.nonce + (e.dhPub + (BigEndian(e.number, 4) + e.ciphertext))
  }

  function ReadFrame(b: bytes): Envelope
    requires |b| >= 48
  {
    Envelope(FromBigEndian(b[44..48]), b[12..44], b[..12], b[48..])
  }

  function MessagePayload(conn: ConnectionId, data: bytes): Payload {
    PlainPayload(Message, data).(connectionId := conn)
  }

  function SendBytes(s: Suite, st: SessionState, body: bytes, nonce: Nonce): (SessionState, Result<Payload, string>) {
    if st.ourMasterPub.None? then (st, Failure("master pubkey not set"))
    else if st.ratchet.None? then (st, Failure("Session not established"))
    else
      var (r, e) := Encrypt(s, st.ratchet.value, st.ourMasterPub.value + body, nonce);
      var st' := st.(ratchet := Some(r));
      if st.connectionId.None? then (st', Failure("connection ID not set"))
      else (st', Success(MessagePayload(st.connectionId.value, Frame(e))))
  }

  /** The message bytes and the sender's master key inside a decrypted plaintext. */
  function Opened(plaintext: Result<bytes, string>): Result<(bytes, Key32), string> {
    match plaintext
    case Failure(_) => Failure("Couldn't decrypt the message")
    case Success(p) => if |p| < 32 then Failure("plaintext too short for sender pk") else Success((p[32..], p[..32]))
  }

  function ReceivePayload(s: Suite, st: SessionState, p: Payload, secret: Key32, now: nat, victim: Option<Key32>): (SessionState, Result<(bytes, Key32), string>) {
    if p.tag != Message then (st, Failure("expected Message payload"))
    else if |p.data| < 48 then (st, Failure("packet too short"))
    else if st.ratchet.None? then (st, Failure("Session not established"))
    else
      var (r, plaintext) := Decrypt(s, st.ratchet.value, ReadFrame(p.data), secret, now, victim);
      (st.(ratchet := Some(r)), Opened(plaintext))
  }

  /** What is digested into a safety number: the hash, then both master keys in byte order. */
  function SafetyInput(hash: Key32, ours: Key32, theirs: Key32): bytes {
    if LexLess(ours, theirs) then hash + ours + theirs else hash + theirs + ours
  }

  function SafetyNumber(s: Suite, st: SessionState, ours: Key32, theirs: Key32): Option<Key32> {
    if st.handshakeHash.None? then None else Some(s.digest(SafetyInput(st.handshakeHash.value, ours, theirs)))
  }

  // -------- the session object --------

  /** The ratchet is owned by value: a step loads it into a ratchet object and writes it back. */
  class Session {
    const suite: Suite
    const ourCertificate: Certificate
    const ourMasterPub: Option<Key32>
    const peerUserId: Option<Key32>
    var initiator: bool
    var responder: bool
    var ratchet: Option<RatchetState>
    var handshakeHash: Option<Key32>
    var remoteStatic: Option<Key32>
    var ourRatchetDhPriv: Option<Key32>
    var theirRatchetDhPub: Option<Key32>
    var peerCertificate: Option<Certificate>
    var peerMasterPub: Option<Key32>
    var peerAddr: Option<SocketAddr>
    var connectionId: Option<ConnectionId>

    function State(): SessionState
      reads this
    {
      SessionState(initiator, responder, ratchet, handshakeHash, remoteStatic, ourRatchetDhPriv, theirRatchetDhPub,
                   ourCertificate, ourMasterPub, peerCertificate, peerUserId, peerMasterPub, peerAddr, connectionId)
    }

    constructor (suite: Suite, st: SessionState)
      ensures this.suite == suite && State() == st
    {
      this.suite := suite;
      ourCertificate, ourMasterPub, peerUserId := st.ourCertificate, st.ourMasterPub, st.peerUserId;
      initiator, responder, ratchet := st.initiator, st.responder, st.ratchet;
      handshakeHash, remoteStatic := st.handshakeHash, st.remoteStatic;
      ourRatchetDhPriv, theirRatchetDhPub := st.ourRatchetDhPriv, st.theirRatchetDhPub;
      peerCertificate, peerMasterPub, peerAddr := st.peerCertificate, st.peerMasterPub, st.peerAddr;
      connectionId := st.connectionId;
    }

    method Initiate(ourAddr: SocketAddr, secret: Key32, write: bytes -> Result<bytes, string>) returns (r: Result<bytes, string>)
      modifies this
      ensures (State(), r) == InitiateHandshake(suite, old(State()), ourAddr, secret, write)
    {
      if ourMasterPub.None? {
        return Failure("master pubkey not set");
      }
      var payload := FirstPayload(suite, secret, ourCertificate, ourMasterPub.value, ourAddr);
      ourRatchetDhPriv := Some(secret);
      if !initiator {
        return Failure("Session is not an initiator");
      }
      return write(payload);
    }

    /** The root key, hash, static key and connection id of a finished handshake. */
    method Settle(h: HandshakeResult, priv: Key32, pub: Key32, preRatchet: Option<Key32>, now: nat)
      modifies this`ratchet, this`handshakeHash, this`remoteStatic, this`connectionId
      ensures var r := New(suite, RootKey(suite, h.handshakeHash, priv, pub), priv, pub, now);
              ratchet == Some(if preRatchet.Some? then SendStep(suite, r, preRatchet.value) else r)
      ensures handshakeHash == Some(h.handshakeHash) && remoteStatic == Some(h.remoteStatic)
      ensures connectionId == Some(suite.connectionId(h.handshakeHash))
    {
      var dr := new DoubleRatchet(suite, RootKey(suite, h.handshakeHash, priv, pub), priv, pub, now);
      if preRatchet.Some? {
        dr.InitiatorPreRatchet(preRatchet.value);
      }
      ratchet := Some(dr.State());
      handshakeHash := Some(h.handshakeHash);
      remoteStatic := Some(h.remoteStatic);
      connectionId := Some(suite.connectionId(h.handshakeHash));
    }

    method Complete(finish: Result<HandshakeResult, string>, secret: Key32, now: nat) returns (r: Result<(), string>)
      requires CanComplete(State(), finish)
      modifies this
      ensures (State(), r) == CompleteHandshake(suite, old(State()), finish, secret, now)
    {
      if !initiator {
        return Failure("Session is not an initiator");
      }
      initiator := false;
      if finish.Failure? {
        return Failure(finish.error);
      }
      var h := finish.value;
      if |h.peerPayload| < 32 + 128 {
        return Failure("handshake payload too short for certificate");
      }
      var cert := ReadCertificate(suite, h.peerPayload[32..]);
      if cert.None? {
        return Failure("bad peer device certificate");
      }
      if cert.value.x25519 != h.remoteStatic {
        return Failure("peer certificate x25519 key doesn't match handshake");
      }
      if peerUserId.Some? && !Verifies(suite, peerUserId.value, cert.value) {
        return Failure("peer device certificate signature invalid");
      }
      peerCertificate := cert;
      Settle(h, ourRatchetDhPriv.value, h.peerPayload[..32], Some(secret), now);
      return Success(());
    }

    method Accept(incoming: Result<bytes, string>) returns (r: Result<(), string>)
      modifies this
      ensures (State(), r) == AcceptHandshake(suite, old(State()), incoming)
    {
      if !responder {
        return Failure("Session is not a responder");
      }
      if incoming.Failure? {
        return Failure(incoming.error);
      }
      var p := incoming.value;
      if |p| < 32 + 128 + 32 + 7 {
        return Failure("handshake payload too short");
      }
      theirRatchetDhPub := Some(p[..32]);
      var cert := ReadCertificate(suite, p[32..160]);
      if cert.None? {
        return Failure("bad peer device certificate");
      }
      peerCertificate := cert;
      peerMasterPub := Some(p[160..192]);
      var addr := D.ReadAddress(p[192..]);
      if !addr.Parsed? {
        return Failure("truncated or unknown addr");
      }
      peerAddr := Some(addr.value);
      return Success(());
    }

    method Reply(secret: Key32, reply: bytes -> Result<(bytes, HandshakeResult), string>, now: nat) returns (r: Result<bytes, string>)
      requires CanReply(suite, State(), secret, reply)
      modifies this
      ensures (State(), r) == ReplyHandshake(suite, old(State()), secret, reply, now)
    {
      ourRatchetDhPriv := Some(secret);
      if !responder {
        return Failure("Session is not a responder");
      }
      responder := false;
      var replied := reply(ReplyPayload(suite, secret, ourCertificate));
      if replied.Failure? {
        return Failure(replied.error);
      }
      var (outgoing, h) := replied.value;
      if peerCertificate.value.x25519 != h.remoteStatic {
        return Failure("peer certificate x25519 key doesn't match handshake");
      }
      Settle(h, secret, theirRatchetDhPub.value, None, now);
      return Success(outgoing);
    }

    method Send(body: bytes, nonce: Nonce) returns (r: Result<Payload, string>)
      requires ratchet.Some? ==> ratchet.value.sendingChain.messageNumber < U32_MAX
      modifies this`ratchet
      ensures (State(), r) == SendBytes(suite, old(State()), body, nonce)
    {
      if ourMasterPub.None? {
        return Failure("master pubkey not set");
      }
      if ratchet.None? {
        return Failure("Session not established");
      }
      var dr := new DoubleRatchet.Restore(suite, ratchet.value);
      var e := dr.Seal(ourMasterPub.value + body, nonce);
      ratchet := Some(dr.State());
      if connectionId.None? {
        return Failure("connection ID not set");
      }
      return Success(MessagePayload(connectionId.value, Frame(e)));
    }

    method Receive(p: Payload, secret: Key32, now: nat) returns (r: Result<(bytes, Key32), string>, ghost victim: Option<Key32>)
      requires |p.data| >= 48 && ratchet.Some? ==> ReadFrame(p.data).number <= U32_MAX && Countable(ratchet.value, ReadFrame(p.data).dhPub)
      modifies this`ratchet
      ensures (State(), r) == ReceivePayload(suite, old(State()), p, secret, now, victim)
      ensures p.tag == Message && |p.data| >= 48 && old(ratchet).Some? && Turns(old(ratchet).value, ReadFrame(p.data)) ==>
                MakesRoom(old(ratchet).value.receivingChains, victim)
    {
      victim := None;
      if p.tag != Message {
        return Failure("expected Message payload"), victim;
      }
      if |p.data| < 48 {
        return Failure("packet too short"), victim;
      }
      if ratchet.None? {
        return Failure("Session not established"), victim;
      }
      var dr := new DoubleRatchet.Restore(suite, ratchet.value);
      var plaintext;
      plaintext, victim := dr.Open(ReadFrame(p.data), secret, now);
      ratchet := Some(dr.State());
      r := Opened(plaintext);
    }
  }

  /** The message counter of this receiving chain has not reached the end of its 32 bits. */
  predicate Countable(r: RatchetState, pub: Key32) {
    pub in r.receivingChains ==> r.receivingChains[pub].chain.messageNumber < U32_MAX
  }
}
