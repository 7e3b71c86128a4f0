/**
 * The session index and the message path of src/runtime.rs: each tick is one step, with what the packet pile,
 * the Noise library and the random source supply as inputs.
 */
module Runtimes {
  import opened Wrappers
  import opened Bytes
  import opened Contacts
  import opened Crypto
  import opened Chains
  import opened Packets
  import opened Sessions

  /** Sixty seconds, in nanoseconds. */
  const DEDUP_WINDOW := 60_000_000_000

  // -------- the index --------

  /** The three maps that must agree. */
  datatype Index = Index(
    sessions: map<ConnectionId, SessionState>,
    connToPk: map<ConnectionId, Key32>,
    pkToConn: map<Key32, seq<ConnectionId>>)

  function ConnsOf(lists: map<Key32, seq<ConnectionId>>, pk: Key32): seq<ConnectionId> {
    if pk in lists then lists[pk] else []
  }

  function AddConn(ix: Index, c: ConnectionId, pk: Key32, st: SessionState): Index {
    Index(ix.sessions[c := st], ix.connToPk[c := pk], ix.pkToConn[pk := ConnsOf(ix.pkToConn, pk) + [c]])
  }

  function Without<T(==,!new)>(s: seq<T>, x: T): (r: seq<T>)
    ensures forall y :: y in r <==> y in s && y != x
    ensures |r| <= |s|
  {
    if s == [] then []
    else if s[|s| - 1] == x then Without(s[..|s| - 1], x)
    else Without(s[..|s| - 1], x) + [s[|s| - 1]]
  }

  function RemoveConn(ix: Index, c: ConnectionId): Index {
    var sessions := ix.sessions - {c};
    if c !in ix.connToPk then ix.(sessions := sessions)
    else
      var pk := ix.connToPk[c];
      var conns := Without(ConnsOf(ix.pkToConn, pk), c);
      Index(sessions, ix.connToPk - {c},
            if pk !in ix.pkToConn then ix.pkToConn
            else if conns == [] then ix.pkToConn - {pk}
            else ix.pkToConn[pk := conns])
  }

  // -------- the runtime's state --------

  datatype RuntimeState = RuntimeState(
    index: Index,
    pending: map<ConnectionId, (SessionState, Option<Key32>)>,
    pkToAddr: map<Key32, SocketAddr>,
    seenTags: set<ConnectionId>,
    receivedKeys: map<Key32, nat>,
    peerKeys: map<SocketAddr, Key32>,
    masterPub: Option<Key32>,
    deviceCert: Option<Certificate>)

  // -------- handshakes --------

  /** `initiate_handshake`: the first packet to the pending peer, under the tag, and where it goes. */
  function BeginHandshake(s: Suite, rt: RuntimeState, tag: ConnectionId, ourAddr: SocketAddr, secret: Key32, write: bytes -> Result<bytes, string>):
    (RuntimeState, Result<(Payload, SocketAddr), string>)
  {
    if tag !in rt.pending then (rt, Failure("unknown pending tag"))
    else if rt.pending[tag].1.None? then (rt, Failure("initiator must have peer_pk"))
    else
      var peer := rt.pending[tag].1.value;
      var (st, written) := InitiateHandshake(s, rt.pending[tag].0, ourAddr, secret, write);
      (rt.(pending := rt.pending[tag := (st, Some(peer))]),
       match written
       case Failure(e) => Failure(e)
       case Success(b) =>
         if peer !in rt.pkToAddr then Failure("peer address not set")
         else Success((PlainPayload(Handshake, b).(connectionId := tag), rt.pkToAddr[peer])))
  }

  /** A handshake packet and what Noise and the random source supply for it. */
  datatype Incoming = Incoming(
    tag: ConnectionId, sender: SocketAddr, ackRequired: bool,
    finish: Result<HandshakeResult, string>,
    message: Result<bytes, string>,
    reply: bytes -> Result<(bytes, HandshakeResult), string>,
    preSecret: Key32, replySecret: Key32, now: nat)

  /** What a handshake tick hands to the outside: a reply, a new peer with its safety number, and an ack. */
  datatype Outcome = Outcome(reply: Option<(Payload, SocketAddr)>, notice: Option<(Key32, Key32)>, acked: bool)

  function OrZero(k: Option<Key32>): Key32 {
    if k.Some? then k.value else ZeroKey()
  }

  function PeerKeyed(keys: map<SocketAddr, Key32>, sender: SocketAddr, cert: Option<Certificate>): map<SocketAddr, Key32> {
    if cert.Some? then keys[sender := cert.value.ed25519] else keys
  }

  predicate Completing(rt: RuntimeState, tag: ConnectionId) {
    tag in rt.pending && rt.pending[tag].0.initiator
  }

  predicate HandshakeReady(rt: RuntimeState, i: Incoming) {
    Completing(rt, i.tag) ==> CanComplete(rt.pending[i.tag].0, i.finish)
  }

  /** The pending initiator of this tag after reading the packet. */
  function Completed(s: Suite, rt: RuntimeState, i: Incoming): (SessionState, Result<(), string>)
    requires Completing(rt, i.tag) && HandshakeReady(rt, i)
  {
    CompleteHandshake(s, rt.pending[i.tag].0, i.finish, i.preSecret, i.now)
  }

  predicate Promotes(s: Suite, rt: RuntimeState, i: Incoming)
    requires HandshakeReady(rt, i)
  {
    Completing(rt, i.tag) && Completed(s, rt, i).1.Success? && Completed(s, rt, i).0.connectionId.Some?
  }

  /** A pending session moves into the index. */
  function Promote(s: Suite, rt: RuntimeState, i: Incoming): (RuntimeState, Outcome)
    requires HandshakeReady(rt, i) && Promotes(s, rt, i)
  {
    var st, pk := Completed(s, rt, i).0, OrZero(rt.pending[i.tag].1);
    (rt.(index := AddConn(rt.index, st.connectionId.value, pk, st),
         pending := rt.pending - {i.tag},
         peerKeys := PeerKeyed(rt.peerKeys, i.sender, st.peerCertificate)),
     Outcome(None, Some((pk, OrZero(SafetyNumber(s, st, OrZero(rt.masterPub), pk)))), i.ackRequired))
  }

  /** The responder session a packet gives rise to once accepted, before the reply. */
  function Spawned(s: Suite, rt: RuntimeState, i: Incoming): Option<SessionState> {
    if rt.deviceCert.None? || rt.masterPub.None? then None
    else
      var (st, accepted) := AcceptHandshake(s, NewResponder(rt.deviceCert.value, rt.masterPub.value), i.message);
      if accepted.Success? then Some(st) else None
  }

  lemma SpawnedCanReply(s: Suite, rt: RuntimeState, i: Incoming)
    ensures Spawned(s, rt, i).Some? ==> CanReply(s, Spawned(s, rt, i).value, i.replySecret, i.reply)
  {
  }

  function Replied(s: Suite, rt: RuntimeState, i: Incoming): (SessionState, Result<bytes, string>)
    requires Spawned(s, rt, i).Some?
  {
    SpawnedCanReply(s, rt, i);
    ReplyHandshake(s, Spawned(s, rt, i).value, i.replySecret, i.reply, i.now)
  }

  function WithAddr(addrs: map<Key32, SocketAddr>, pk: Key32, addr: Option<SocketAddr>): map<Key32, SocketAddr> {
    if addr.Some? then addrs[pk := addr.value] else addrs
  }

  /** What is recorded of a responder that has tried to reply. */
  function RecordResponder(s: Suite, rt: RuntimeState, i: Incoming, st: SessionState, reply: Result<bytes, string>): (RuntimeState, Outcome) {
    var pk := OrZero(st.peerMasterPub);
    var addrs := WithAddr(rt.pkToAddr, pk, st.peerAddr);
    var packet := match reply
      case Failure(_) => None
      case Success(b) =>
        Some((PlainPayload(Handshake, b).(connectionId := i.tag), if pk in addrs then addrs[pk] else i.sender));
    if st.connectionId.None? then (rt.(pkToAddr := addrs), Outcome(packet, None, i.ackRequired))
    else
      (rt.(index := AddConn(rt.index, st.connectionId.value, pk, st),
           pkToAddr := addrs,
           seenTags := rt.seenTags + {i.tag},
           peerKeys := PeerKeyed(rt.peerKeys, i.sender, st.peerCertificate)),
       Outcome(packet, Some((pk, OrZero(SafetyNumber(s, st, OrZero(rt.masterPub), pk)))), i.ackRequired))
  }

  /** A packet with an unseen tag may open a responder session. */
  function Respond(s: Suite, rt: RuntimeState, i: Incoming): (RuntimeState, Outcome) {
    if Spawned(s, rt, i).None? then (rt, Outcome(None, None, i.ackRequired))
    else
      var (st, reply) := Replied(s, rt, i);
      RecordResponder(s, rt, i, st, reply)
  }

  function HandshakeTick(s: Suite, rt: RuntimeState, i: Incoming): (RuntimeState, Outcome)
    requires HandshakeReady(rt, i)
  {
    if Promotes(s, rt, i) then Promote(s, rt, i)
    else
      var rt1 := if Completing(rt, i.tag)
                 then rt.(pending := rt.pending[i.tag := (Completed(s, rt, i).0, rt.pending[i.tag].1)])
                 else rt;
      if i.tag in rt.seenTags then (rt1, Outcome(None, None, false))
      else Respond(s, rt1, i)
  }

  // -------- messages --------

  /** [key: 32] [nonce: 12] [ciphertext], sealed once for all devices of the peer. */
  function MessageBody(s: Suite, key: Key32, nonce: Nonce, message: bytes): bytes {
    key + (nonce + s.seal(key, nonce, message))
  }

  function OpenBody(s: Suite, inner: bytes): Option<bytes>
    requires |inner| >= 44
  {
    s.open(inner[..32], inner[32..44], inner[44..])
  }

  function DedupKey(s: Suite, senderPk: Key32, inner: bytes): Key32
    requires |inner| >= 44
  {
    s.digest(senderPk + inner[..32])
  }

  function Recent(keys: map<Key32, nat>, now: nat): map<Key32, nat> {
    map k | k in keys && now < keys[k] + DEDUP_WINDOW :: keys[k]
  }

  /** A message packet, the clock, and what a turn of the ratchet needs. */
  datatype MessageIn = MessageIn(payload: Payload, ackRequired: bool, secret: Key32, now: nat, victim: Option<Key32>)

  /** What the application gets, if anything, and whether the packet is acknowledged. */
  datatype Delivery = Delivery(message: Option<(bytes, Key32)>, acked: bool)

  /** Dedup, then open and hand over; `wellFormed` says whether the opened bytes parse as a message. */
  function Deduplicate(s: Suite, rt: RuntimeState, inner: bytes, senderPk: Key32, m: MessageIn, wellFormed: bytes -> bool): (RuntimeState, Delivery) {
    if |inner| < 44 then (rt, Delivery(None, false))
    else if DedupKey(s, senderPk, inner) in rt.receivedKeys then (rt, Delivery(None, m.ackRequired))
    else
      var kept := Recent(rt.receivedKeys, m.now);
      match OpenBody(s, inner)
      case None => (rt.(receivedKeys := kept), Delivery(None, false))
      case Some(plaintext) =>
        if !wellFormed(plaintext) then (rt.(receivedKeys := kept), Delivery(None, false))
        else (rt.(receivedKeys := kept[DedupKey(s, senderPk, inner) := m.now]), Delivery(Some((plaintext, senderPk)), m.ackRequired))
  }

  function MessageTick(s: Suite, rt: RuntimeState, m: MessageIn, wellFormed: bytes -> bool): (RuntimeState, Delivery) {
    var c := m.payload.connectionId;
    if c !in rt.index.sessions then (rt.(index := RemoveConn(rt.index, c)), Delivery(None, false))
    else
      var (st, received) := ReceivePayload(s, rt.index.sessions[c], m.payload, m.secret, m.now, m.victim);
      match received
      case Failure(_) => (rt.(index := RemoveConn(rt.index, c)), Delivery(None, false))
      case Success((inner, senderPk)) =>
        Deduplicate(s, rt.(index := rt.index.(sessions := rt.index.sessions[c := st])), inner, senderPk, m, wellFormed)
  }

  // -------- sending --------

  /** The sessions after sending on some of them, the payloads, and the first error. */
  datatype Sending = Sending(sessions: map<ConnectionId, SessionState>, payloads: seq<Payload>, error: Option<string>)

  function SendOne(s: Suite, g: Sending, c: ConnectionId, inner: bytes, nonces: ConnectionId -> Nonce): Sending {
    if g.error.Some? || c !in g.sessions || !Established(g.sessions[c]) then g
    else
      var (st, sent) := SendBytes(s, g.sessions[c], inner, nonces(c));
      match sent
      case Success(p) => Sending(g.sessions[c := st], g.payloads + [p], None)
      case Failure(_) => Sending(g.sessions[c := st], g.payloads, Some("session send"))
  }

  function SendOn(s: Suite, sessions: map<ConnectionId, SessionState>, conns: seq<ConnectionId>, inner: bytes, nonces: ConnectionId -> Nonce): Sending {
    if conns == [] then Sending(sessions, [], None)
    else SendOne(s, SendOn(s, sessions, conns[..|conns| - 1], inner, nonces), conns[|conns| - 1], inner, nonces)
  }

  /** The runtime after sending, what goes out, and the result. */
  function SendMessage(s: Suite, rt: RuntimeState, inner: bytes, peer: Key32, nonces: ConnectionId -> Nonce): (RuntimeState, seq<Payload>, Result<(), string>) {
    if peer !in rt.index.pkToConn then (rt, [], Failure("no session for peer"))
    else if peer !in rt.pkToAddr then (rt, [], Failure("no address for peer"))
    else
      var g := SendOn(s, rt.index.sessions, rt.index.pkToConn[peer], inner, nonces);
      (rt.(index := rt.index.(sessions := g.sessions)), g.payloads,
       if g.error.Some? then Failure(g.error.value)
       else if g.payloads == [] then Failure("no active session for peer")
       else Success(()))
  }

  // -------- the runtime object --------

  /** Sessions are owned by value: one in use is loaded into a session object and written back. */
  class Runtime {
    const suite: Suite
    var sessions: map<ConnectionId, SessionState>
    var connToPk: map<ConnectionId, Key32>
    var pkToConn: map<Key32, seq<ConnectionId>>
    var pending: map<ConnectionId, (SessionState, Option<Key32>)>
    var pkToAddr: map<Key32, SocketAddr>
    var seenTags: set<ConnectionId>
    var receivedKeys: map<Key32, nat>
    var peerKeys: map<SocketAddr, Key32>
    var masterPub: Option<Key32>
    var deviceCert: Option<Certificate>

    function Maps(): Index
      reads this
    {
      Index(sessions, connToPk, pkToConn)
    }

    function State(): RuntimeState
      reads this
    {
      RuntimeState(Maps(), pending, pkToAddr, seenTags, receivedKeys, peerKeys, masterPub, deviceCert)
    }

    constructor (suite: Suite, masterPub: Option<Key32>, deviceCert: Option<Certificate>)
      ensures this.suite == suite
      ensures State() == RuntimeState(Index(map[], map[], map[]), map[], map[], {}, map[], map[], masterPub, deviceCert)
    {
      this.suite, this.masterPub, this.deviceCert := suite, masterPub, deviceCert;
      sessions, connToPk, pkToConn := map[], map[], map[];
      pending, pkToAddr, seenTags := map[], map[], {};
      receivedKeys, peerKeys := map[], map[];
    }

    method SetMasterPubkey(pk: Key32)
      modifies this`masterPub
      ensures masterPub == Some(pk)
    {
      masterPub := Some(pk);
    }

    method SetDeviceCert(cert: Certificate)
      modifies this`deviceCert
      ensures deviceCert == Some(cert)
    {
      deviceCert := Some(cert);
    }

    method SetPeerAddr(pk: Key32, addr: SocketAddr)
      modifies this`pkToAddr
      ensures pkToAddr == old(pkToAddr)[pk := addr]
    {
      pkToAddr := pkToAddr[pk := addr];
    }

    method EnableSessionInitiator(peerId: Key32, tag: ConnectionId) returns (r: Result<ConnectionId, string>)
      modifies this`pending
      ensures r.Success? <==> masterPub.Some? && deviceCert.Some?
      ensures r.Success? ==> r.value == tag
      ensures r.Success? ==> pending == old(pending)[tag := (NewInitiator(deviceCert.value, masterPub.value, peerId), Some(peerId))]
      ensures r.Failure? ==> pending == old(pending)
    {
      if masterPub.None? {
        return Failure("master pubkey not set");
      }
      if deviceCert.None? {
        return Failure("No device certificate available");
      }
      pending := pending[tag := (NewInitiator(deviceCert.value, masterPub.value, peerId), Some(peerId))];
      return Success(tag);
    }

    method StartHandshake(tag: ConnectionId, ourAddr: SocketAddr, secret: Key32, write: bytes -> Result<bytes, string>)
      returns (r: Result<(Payload, SocketAddr), string>)
      modifies this`pending
      ensures (State(), r) == BeginHandshake(suite, old(State()), tag, ourAddr, secret, write)
    {
      if tag !in pending {
        return Failure("unknown pending tag");
      }
      if pending[tag].1.None? {
        return Failure("initiator must have peer_pk");
      }
      var peer := pending[tag].1.value;
      var session := new Session(suite, pending[tag].0);
      var written := session.Initiate(ourAddr, secret, write);
      pending := pending[tag := (session.State(), Some(peer))];
      if written.Failure? {
        return Failure(written.error);
      }
      if peer !in pkToAddr {
        return Failure("peer address not set");
      }
      return Success((PlainPayload(Handshake, written.value).(connectionId := tag), pkToAddr[peer]));
    }

    method IndexConn(c: ConnectionId, pk: Key32, st: SessionState)
      modifies this`sessions, this`connToPk, this`pkToConn
      ensures Maps() == AddConn(old(Maps()), c, pk, st)
    {
      connToPk := connToPk[c := pk];
      pkToConn := pkToConn[pk := (if pk in pkToConn then pkToConn[pk] else []) + [c]];
      sessions := sessions[c := st];
    }

    method RemoveStaleConn(c: ConnectionId)
      modifies this`sessions, this`connToPk, this`pkToConn
      ensures Maps() == RemoveConn(old(Maps()), c)
    {
      sessions := sessions - {c};
      if c in connToPk {
        var pk := connToPk[c];
        connToPk := connToPk - {c};
        if pk in pkToConn {
          var kept := Retain(pkToConn[pk], c);
          pkToConn := if kept == [] then pkToConn - {pk} else pkToConn[pk := kept];
        }
      }
    }

    static method Retain(conns: seq<ConnectionId>, c: ConnectionId) returns (kept: seq<ConnectionId>)
      ensures kept == Without(conns, c)
    {
      kept := [];
      for i := 0 to |conns|
        invariant kept == Without(conns[..i], c)
      {
        assert conns[..i + 1][..i] == conns[..i];
        if conns[i] != c {
          kept := kept + [conns[i]];
        }
      }
      assert conns[..|conns|] == conns;
    }

    method TickHandshake(i: Incoming) returns (o: Outcome)
      requires HandshakeReady(State(), i)
      modifies this
      ensures (State(), o) == HandshakeTick(suite, old(State()), i)
    {
      if i.tag in pending && pending[i.tag].0.initiator {
        var session := new Session(suite, pending[i.tag].0);
        var done := session.Complete(i.finish, i.preSecret, i.now);
        var st := session.State();
        if done.Success? && st.connectionId.Some? {
          o := FinishInitiator(i, st);
          return;
        }
        pending := pending[i.tag := (st, pending[i.tag].1)];
      }
      if i.tag in seenTags {
        return Outcome(None, None, false);
      }
      o := OpenResponder(i);
    }

    /** A completed pending session goes into the index. */
    method FinishInitiator(i: Incoming, st: SessionState) returns (o: Outcome)
      requires HandshakeReady(State(), i) && Promotes(suite, State(), i) && st == Completed(suite, State(), i).0
      modifies this
      ensures (State(), o) == Promote(suite, old(State()), i)
    {
      var pk := OrZero(pending[i.tag].1);
      if st.peerCertificate.Some? {
        peerKeys := peerKeys[i.sender := st.peerCertificate.value.ed25519];
      }
      pending := pending - {i.tag};
      var safety := SafetyNumber(suite, st, OrZero(masterPub), pk);
      IndexConn(st.connectionId.value, pk, st);
      return Outcome(None, Some((pk, OrZero(safety))), i.ackRequired);
    }

    method OpenResponder(i: Incoming) returns (o: Outcome)
      modifies this
      ensures (State(), o) == Respond(suite, old(State()), i)
    {
      o := Outcome(None, None, i.ackRequired);
      if deviceCert.None? || masterPub.None? {
        return;
      }
      var session := new Session(suite, NewResponder(deviceCert.value, masterPub.value));
      var accepted := session.Accept(i.message);
      if accepted.Failure? {
        return;
      }
      SpawnedCanReply(suite, State(), i);
      var reply := session.Reply(i.replySecret, i.reply, i.now);
      var st := session.State();
      o := SettleResponder(i, st, reply);
    }

    method SettleResponder(i: Incoming, st: SessionState, reply: Result<bytes, string>) returns (o: Outcome)
      modifies this
      ensures (State(), o) == RecordResponder(suite, old(State()), i, st, reply)
    {
      var pk := OrZero(st.peerMasterPub);
      if st.peerAddr.Some? {
        pkToAddr := pkToAddr[pk := st.peerAddr.value];
      }
      var packet: Option<(Payload, SocketAddr)> := None;
      if reply.Success? {
        var addr := if pk in pkToAddr then pkToAddr[pk] else i.sender;
        packet := Some((PlainPayload(Handshake, reply.value).(connectionId := i.tag), addr));
      }
      o := Outcome(packet, None, i.ackRequired);
      if st.connectionId.Some? {
        if st.peerCertificate.Some? {
          peerKeys := peerKeys[i.sender := st.peerCertificate.value.ed25519];
        }
        var safety := SafetyNumber(suite, st, OrZero(masterPub), pk);
        IndexConn(st.connectionId.value, pk, st);
        seenTags := seenTags + {i.tag};
        o := Outcome(packet, Some((pk, OrZero(safety))), i.ackRequired);
      }
    }

    /** The victim is the saved chain the ratchet drops if it turns with eight chains saved. */
    method TickMessage(p: Payload, ackRequired: bool, secret: Key32, now: nat, wellFormed: bytes -> bool)
      returns (d: Delivery, ghost m: MessageIn)
      requires p.connectionId in sessions && |p.data| >= 48 && sessions[p.connectionId].ratchet.Some? ==>
                 ReadFrame(p.data).number <= U32_MAX && Countable(sessions[p.connectionId].ratchet.value, ReadFrame(p.data).dhPub)
      modifies this
      ensures m == MessageIn(p, ackRequired, secret, now, m.victim)
      ensures (State(), d) == MessageTick(suite, old(State()), m, wellFormed)
    {
      var c := p.connectionId;
      m := MessageIn(p, ackRequired, secret, now, None);
      if c !in sessions {
        RemoveStaleConn(c);
        return Delivery(None, false), m;
      }
      var received, victim := ReceiveOn(c, p, secret, now);
      m := MessageIn(p, ackRequired, secret, now, victim);
      if received.Failure? {
        RemoveStaleConn(c);
        assert sessions == old(sessions) - {c};
        return Delivery(None, false), m;
      }
      d := Deliver(received.value.0, received.value.1, m, ackRequired, now, wellFormed);
    }

    method ReceiveOn(c: ConnectionId, p: Payload, secret: Key32, now: nat)
      returns (received: Result<(bytes, Key32), string>, ghost victim: Option<Key32>)
      requires c in sessions
      requires |p.data| >= 48 && sessions[c].ratchet.Some? ==>
                 ReadFrame(p.data).number <= U32_MAX && Countable(sessions[c].ratchet.value, ReadFrame(p.data).dhPub)
      modifies this`sessions
      ensures c in sessions && sessions == old(sessions)[c := sessions[c]]
      ensures (sessions[c], received) == ReceivePayload(suite, old(sessions)[c], p, secret, now, victim)
    {
      var session := new Session(suite, sessions[c]);
      received, victim := session.Receive(p, secret, now);
      sessions := sessions[c := session.State()];
    }

    method Deliver(inner: bytes, senderPk: Key32, ghost m: MessageIn, ackRequired: bool, now: nat, wellFormed: bytes -> bool) returns (d: Delivery)
      requires m.ackRequired == ackRequired && m.now == now
      modifies this`receivedKeys
      ensures (State(), d) == Deduplicate(suite, old(State()), inner, senderPk, m, wellFormed)
    {
      if |inner| < 44 {
        return Delivery(None, false);
      }
      var key, nonce := inner[..32], inner[32..44];
      var dedupKey := suite.digest(senderPk + key);
      if dedupKey in receivedKeys {
        return Delivery(None, ackRequired);
      }
      receivedKeys := Recent(receivedKeys, now);
      var plaintext := suite.open(key, nonce, inner[44..]);
      if plaintext.None? || !wellFormed(plaintext.value) {
        return Delivery(None, false);
      }
      receivedKeys := receivedKeys[dedupKey := now];
      return Delivery(Some((plaintext.value, senderPk)), ackRequired);
    }

    method Send(inner: bytes, peer: Key32, nonces: ConnectionId -> Nonce) returns (payloads: seq<Payload>, r: Result<(), string>)
      requires peer in pkToConn ==> CanCount(sessions, pkToConn[peer], |pkToConn[peer]|)
      modifies this`sessions
      ensures (State(), payloads, r) == SendMessage(suite, old(State()), inner, peer, nonces)
    {
      payloads := [];
      if peer !in pkToConn {
        return payloads, Failure("no session for peer");
      }
      if peer !in pkToAddr {
        return payloads, Failure("no address for peer");
      }
      var error;
      sessions, payloads, error := SendOnAll(suite, sessions, pkToConn[peer], inner, nonces);
      r := if error.Some? then Failure(error.value)
           else if payloads == [] then Failure("no active session for peer")
           else Success(());
    }

    static method SendOnAll(suite: Suite, before: map<ConnectionId, SessionState>, conns: seq<ConnectionId>, inner: bytes, nonces: ConnectionId -> Nonce)
      returns (sessions: map<ConnectionId, SessionState>, payloads: seq<Payload>, error: Option<string>)
      requires CanCount(before, conns, |conns|)
      ensures Sending(sessions, payloads, error) == SendOn(suite, before, conns, inner, nonces)
    {
      sessions, payloads, error := before, [], None;
      for i := 0 to |conns|
        invariant error.None?
        invariant Sending(sessions, payloads, error) == SendOn(suite, before, conns[..i], inner, nonces)
        invariant CanCount(sessions, conns, |conns| - i)
      {
        OneMoreSent(suite, before, conns, i, inner, nonces);
        var c := conns[i];
        if c in sessions && Established(sessions[c]) {
          StillCounts(suite, sessions, conns, |conns| - i, c, inner, nonces(c));
          var st, sent := SendThrough(suite, sessions[c], inner, nonces(c));
          sessions := sessions[c := st];
          if sent.Failure? {
            error := Some("session send");
            ErrorStops(suite, before, conns, i + 1, inner, nonces);
            return;
          }
          payloads := payloads + [sent.value];
        }
      }
      assert conns[..|conns|] == conns;
    }

    static method SendThrough(suite: Suite, before: SessionState, inner: bytes, nonce: Nonce) returns (st: SessionState, sent: Result<Payload, string>)
      requires before.ratchet.Some? ==> before.ratchet.value.sendingChain.messageNumber < U32_MAX
      ensures (st, sent) == SendBytes(suite, before, inner, nonce)
    {
      var session := new Session(suite, before);
      sent := session.Send(inner, nonce);
      st := session.State();
    }
  }

  /** No sending chain on these connections runs out of its 32 bits within n more messages. */
  predicate CanCount(sessions: map<ConnectionId, SessionState>, conns: seq<ConnectionId>, n: nat) {
    forall c :: c in conns && c in sessions && sessions[c].ratchet.Some? ==>
      sessions[c].ratchet.value.sendingChain.messageNumber + n <= U32_MAX
  }

  lemma StillCounts(s: Suite, sessions: map<ConnectionId, SessionState>, conns: seq<ConnectionId>, n: nat, c: ConnectionId, inner: bytes, nonce: Nonce)
    requires CanCount(sessions, conns, n) && n > 0 && c in sessions
    ensures CanCount(sessions[c := SendBytes(s, sessions[c], inner, nonce).0], conns, n - 1)
  {
  }

  lemma OneMoreSent(s: Suite, sessions: map<ConnectionId, SessionState>, conns: seq<ConnectionId>, i: nat, inner: bytes, nonces: ConnectionId -> Nonce)
    requires i < |conns|
    ensures SendOn(s, sessions, conns[..i + 1], inner, nonces) ==
              SendOne(s, SendOn(s, sessions, conns[..i], inner, nonces), conns[i], inner, nonces)
  {
    assert conns[..i + 1][..i] == conns[..i];
  }

  lemma {:induction false} ErrorStops(s: Suite, sessions: map<ConnectionId, SessionState>, conns: seq<ConnectionId>, i: nat, inner: bytes, nonces: ConnectionId -> Nonce)
    requires i <= |conns| && SendOn(s, sessions, conns[..i], inner, nonces).error.Some?
    ensures SendOn(s, sessions, conns, inner, nonces) == SendOn(s, sessions, conns[..i], inner, nonces)
  {
    if i < |conns| {
      var init := conns[..|conns| - 1];
      assert init[..i] == conns[..i];
      ErrorStops(s, sessions, init, i, inner, nonces);
    } else {
      assert conns[..i] == conns;
    }
  }
}
