/**
 * Under which identity a connection is indexed, and what vouches for it: an initiator's connection under the
 * identity it expected, verified; a responder's under the identity its peer claimed, verified or not.
 */
module Owners {
  import opened Wrappers
  import opened Bytes
  import opened Crypto
  import opened Packets
  import opened Sessions
  import opened Runtimes
  import opened RuntimeRuns
  import SR = SessionRuns

  /** A pending session is kept under the identity it expects. */
  ghost predicate PendingOwned(rt: RuntimeState) {
    forall t :: t in rt.pending ==> rt.pending[t].0.peerUserId.Some? && rt.pending[t].1 == rt.pending[t].0.peerUserId
  }

  /** The owner of an indexed connection: expected and verified, or claimed by the peer. */
  ghost predicate OwnedBy(s: Suite, st: SessionState, pk: Key32) {
    && SR.SessionOk(s, st) && Established(st)
    && (st.peerUserId.Some? ==> pk == st.peerUserId.value)
    && (st.peerUserId.None? ==> st.peerMasterPub == Some(pk))
  }

  ghost predicate IndexOwned(s: Suite, ix: Index) {
    forall c :: c in ix.sessions && c in ix.connToPk ==> OwnedBy(s, ix.sessions[c], ix.connToPk[c])
  }

  ghost predicate RuntimeOwned(s: Suite, rt: RuntimeState) {
    RuntimeOk(s, rt) && PendingOwned(rt) && IndexOwned(s, rt.index)
  }

  lemma PromotedIsOwned(s: Suite, rt: RuntimeState, i: Incoming)
    requires PendingOk(s, rt) && PendingOwned(rt) && HandshakeReady(rt, i) && Promotes(s, rt, i)
    ensures OwnedBy(s, Completed(s, rt, i).0, OrZero(rt.pending[i.tag].1))
  {
    SR.CompleteKeepsSession(s, rt.pending[i.tag].0, i.finish, i.preSecret, i.now);
  }

  /** What an accepted first message claims, and that a session opened by it is indexed on that claim alone. */
  lemma RepliedIsOwned(s: Suite, rt: RuntimeState, i: Incoming)
    requires Spawned(s, rt, i).Some? && Replied(s, rt, i).0.connectionId.Some?
    ensures i.message.Success? && |i.message.value| >= 199
    ensures var st, p := Replied(s, rt, i).0, i.message.value;
            && st.peerUserId.None? && st.peerMasterPub == Some(p[160..192])
            && st.peerCertificate == ReadCertificate(s, p[32..160]) && st.peerCertificate.Some?
            && OwnedBy(s, st, p[160..192])
  {
    var st0 := NewResponder(rt.deviceCert.value, rt.masterPub.value);
    SR.AcceptKeepsSession(s, st0, i.message);
    SpawnedCanReply(s, rt, i);
    SR.ReplyKeepsSession(s, Spawned(s, rt, i).value, i.replySecret, i.reply, i.now);
  }

  /**
   * A responder indexes its peer under the master key the first message claims, exactly when the reply goes out
   * and the claimed certificate fits the Noise key; whether that master key signed the certificate plays no part.
   */
  lemma ResponderIndexesClaim(s: Suite, rt: RuntimeState, i: Incoming)
    requires HandshakeReady(rt, i) && !Promotes(s, rt, i) && i.tag !in rt.seenTags && Spawned(s, rt, i).Some?
    ensures i.message.Success? && |i.message.value| >= 199
    ensures var p := i.message.value;
            var reply := i.reply(ReplyPayload(s, i.replySecret, rt.deviceCert.value));
            && ReadCertificate(s, p[32..160]).Some?
            && (NewSession(s, rt, i).Some? <==>
                  reply.Success? && ReadCertificate(s, p[32..160]).value.x25519 == reply.value.1.remoteStatic)
            && (NewSession(s, rt, i).Some? ==>
                  HandshakeTick(s, rt, i).0.index ==
                    AddConn(rt.index, s.connectionId(reply.value.1.handshakeHash), p[160..192], NewSession(s, rt, i).value))
  {
  }

  lemma AddKeepsOwned(s: Suite, ix: Index, c: ConnectionId, pk: Key32, st: SessionState)
    requires IndexOwned(s, ix) && OwnedBy(s, st, pk)
    ensures IndexOwned(s, AddConn(ix, c, pk, st))
  {
  }

  lemma HandshakeKeepsOwned(s: Suite, rt: RuntimeState, i: Incoming)
    requires RuntimeOwned(s, rt) && HandshakeReady(rt, i)
    ensures IndexOwned(s, HandshakeTick(s, rt, i).0.index)
  {
    if Promotes(s, rt, i) {
      var st := Completed(s, rt, i).0;
      PromotedIsOwned(s, rt, i);
      AddKeepsOwned(s, rt.index, st.connectionId.value, OrZero(rt.pending[i.tag].1), st);
    } else if i.tag !in rt.seenTags && Spawned(s, rt, i).Some? && Replied(s, rt, i).0.connectionId.Some? {
      var st := Replied(s, rt, i).0;
      RepliedIsOwned(s, rt, i);
      AddKeepsOwned(s, rt.index, st.connectionId.value, OrZero(st.peerMasterPub), st);
      ReplyAdds(s, rt, i);
    } else {
      TickAddsNewSession(s, rt, i);
    }
  }

  lemma ReplyAdds(s: Suite, rt: RuntimeState, i: Incoming)
    requires HandshakeReady(rt, i) && !Promotes(s, rt, i) && i.tag !in rt.seenTags
    requires Spawned(s, rt, i).Some? && Replied(s, rt, i).0.connectionId.Some?
    ensures var st := Replied(s, rt, i).0;
            HandshakeTick(s, rt, i).0.index == AddConn(rt.index, st.connectionId.value, OrZero(st.peerMasterPub), st)
  {
  }

  lemma HandshakeKeepsPendingOwned(s: Suite, rt: RuntimeState, i: Incoming)
    requires PendingOwned(rt) && HandshakeReady(rt, i)
    ensures PendingOwned(HandshakeTick(s, rt, i).0)
  {
    TickPending(s, rt, i);
  }

  lemma ReceiveKeepsOwner(s: Suite, st: SessionState, m: MessageIn, pk: Key32)
    requires OwnedBy(s, st, pk)
    ensures OwnedBy(s, ReceivePayload(s, st, m.payload, m.secret, m.now, m.victim).0, pk)
  {
  }

  lemma MessageKeepsOwned(s: Suite, rt: RuntimeState, m: MessageIn, wellFormed: bytes -> bool)
    requires IndexOwned(s, rt.index)
    ensures IndexOwned(s, MessageTick(s, rt, m, wellFormed).0.index)
  {
    var c := m.payload.connectionId;
    MessageIndex(s, rt, m, wellFormed);
    if c in rt.index.sessions && c in rt.index.connToPk {
      ReceiveKeepsOwner(s, rt.index.sessions[c], m, rt.index.connToPk[c]);
    }
  }

  lemma SendKeepsOwner(s: Suite, st: SessionState, body: bytes, nonce: Nonce, pk: Key32)
    requires OwnedBy(s, st, pk)
    ensures OwnedBy(s, SendBytes(s, st, body, nonce).0, pk)
  {
  }

  lemma {:induction false} SendOnKeepsOwned(s: Suite, ix: Index, conns: seq<ConnectionId>, inner: bytes, nonces: ConnectionId -> Nonce)
    requires IndexOwned(s, ix)
    ensures IndexOwned(s, ix.(sessions := SendOn(s, ix.sessions, conns, inner, nonces).sessions))
  {
    if conns == [] {
      assert ix.(sessions := ix.sessions) == ix;
    } else {
      var c := conns[|conns| - 1];
      SendOnKeepsOwned(s, ix, conns[..|conns| - 1], inner, nonces);
      var g := SendOn(s, ix.sessions, conns[..|conns| - 1], inner, nonces);
      if c in g.sessions && c in ix.connToPk {
        SendKeepsOwner(s, g.sessions[c], inner, nonces(c), ix.connToPk[c]);
      }
    }
  }

  lemma OthersKeepOwned(s: Suite, rt: RuntimeState, ev: Event)
    requires RuntimeOwned(s, rt) && Allowed(s, rt, ev) && RuntimeOk(s, Step(s, rt, ev))
    requires !ev.HandshakePacket? && !ev.MessagePacket? && !ev.SendTo?
    ensures RuntimeOwned(s, Step(s, rt, ev))
  {
  }

  lemma StepKeepsOwned(s: Suite, rt: RuntimeState, ev: Event)
    requires RuntimeOwned(s, rt) && Allowed(s, rt, ev)
    ensures RuntimeOwned(s, Step(s, rt, ev))
  {
    StepKeepsRuntime(s, rt, ev);
    match ev
    case HandshakePacket(i) =>
      HandshakeKeepsOwned(s, rt, i);
      HandshakeKeepsPendingOwned(s, rt, i);
    case MessagePacket(m, wellFormed) =>
      MessageKeepsOwned(s, rt, m, wellFormed);
      MessageIndex(s, rt, m, wellFormed);
    case SendTo(inner, peer, nonces) =>
      if peer in rt.index.pkToConn {
        SendOnKeepsOwned(s, rt.index, rt.index.pkToConn[peer], inner, nonces);
      }
    case _ => OthersKeepOwned(s, rt, ev);
  }

  lemma {:induction false} RunKeepsOwned(s: Suite, rt: RuntimeState, evs: seq<Event>)
    requires RuntimeOwned(s, rt) && AllowedRun(s, rt, evs)
    ensures RuntimeOwned(s, Run(s, rt, evs))
    decreases |evs|
  {
    if evs != [] {
      StepKeepsOwned(s, rt, evs[0]);
      RunKeepsOwned(s, Step(s, rt, evs[0]), evs[1..]);
    }
  }

  /**
   * In every reachable state each indexed connection holds a certificate for the authenticated Noise key. One
   * that we opened is indexed under the identity we expected, and that identity signed the certificate; one that
   * our peer opened is indexed under the identity it claimed, and the certificate is signed by it only if the
   * claim was true.
   */
  lemma OwnersOfConnections(s: Suite, masterPub: Option<Key32>, deviceCert: Option<Certificate>, evs: seq<Event>, c: ConnectionId)
    requires AllowedRun(s, Boot(masterPub, deviceCert), evs)
    requires c in Run(s, Boot(masterPub, deviceCert), evs).index.sessions
    ensures var ix := Run(s, Boot(masterPub, deviceCert), evs).index;
            && c in ix.connToPk
            && var (st, pk) := (ix.sessions[c], ix.connToPk[c]);
            && st.peerCertificate.Some? && st.remoteStatic == Some(st.peerCertificate.value.x25519)
            && (st.peerUserId.Some? ==> pk == st.peerUserId.value && Verifies(s, pk, st.peerCertificate.value))
            && (st.peerUserId.None? ==> st.peerMasterPub == Some(pk))
  {
    RunKeepsOwned(s, Boot(masterPub, deviceCert), evs);
  }

  /** The sender key handed over with a message is the one inside it: whom the connection is indexed under plays no part. */
  lemma DeliveryIgnoresOwner(s: Suite, rt: RuntimeState, owner: map<ConnectionId, Key32>, m: MessageIn, wellFormed: bytes -> bool)
    ensures MessageTick(s, rt.(index := rt.index.(connToPk := owner)), m, wellFormed).1 == MessageTick(s, rt, m, wellFormed).1
  {
    var c := m.payload.connectionId;
    if c in rt.index.sessions {
      var (st, received) := ReceivePayload(s, rt.index.sessions[c], m.payload, m.secret, m.now, m.victim);
      if received.Success? {
        DeduplicateIgnoresIndex(s, rt, rt.(index := rt.index.(connToPk := owner)).index.(sessions := rt.index.sessions[c := st]),
                                rt.index.(sessions := rt.index.sessions[c := st]), received.value.0, received.value.1, m, wellFormed);
      }
    }
  }

  lemma DeduplicateIgnoresIndex(s: Suite, rt: RuntimeState, a: Index, b: Index, inner: bytes, senderPk: Key32, m: MessageIn, wellFormed: bytes -> bool)
    ensures Deduplicate(s, rt.(index := a), inner, senderPk, m, wellFormed).1 == Deduplicate(s, rt.(index := b), inner, senderPk, m, wellFormed).1
  {
  }
}
