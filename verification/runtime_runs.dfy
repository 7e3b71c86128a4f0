/** What the runtime keeps over every run: maps that agree, sends that go out, and messages handed over once. */
module RuntimeRuns {
  import opened Wrappers
  import opened Bytes
  import opened Contacts
  import opened Crypto
  import opened Chains
  import opened Packets
  import opened Ratchets
  import opened Sessions
  import opened Runtimes
  import A = Agreement
  import SR = SessionRuns

  // -------- the maps agree --------

  /** An indexed session can send under its own connection id. */
  ghost predicate Sendable(c: ConnectionId, st: SessionState) {
    Established(st) && st.connectionId == Some(c) && st.ourMasterPub.Some?
  }

  ghost predicate Listed(owner: map<ConnectionId, Key32>, c: ConnectionId, pk: Key32) {
    c in owner && owner[c] == pk
  }

  /** The lists are the inverse of `connToPk`, without repeats and never empty. */
  ghost predicate ListsAgree(owner: map<ConnectionId, Key32>, lists: map<Key32, seq<ConnectionId>>) {
    && (forall pk, c :: c in ConnsOf(lists, pk) <==> Listed(owner, c, pk))
    && (forall pk :: pk in lists ==> lists[pk] != [] && Distinct(lists[pk]))
  }

  ghost predicate MapsAgree(ix: Index) {
    && ix.sessions.Keys == ix.connToPk.Keys
    && ListsAgree(ix.connToPk, ix.pkToConn)
    && AllSendable(ix.sessions)
  }

  ghost predicate AllSendable(sessions: map<ConnectionId, SessionState>) {
    forall c :: c in sessions ==> Sendable(c, sessions[c])
  }

  lemma DistinctAppend<T>(s: seq<T>, x: T)
    requires Distinct(s) && x !in s
    ensures Distinct(s + [x])
  {
  }

  lemma {:induction false} DistinctWithout<T(!new)>(s: seq<T>, x: T)
    requires Distinct(s)
    ensures Distinct(Without(s, x))
  {
    if s != [] && s[|s| - 1] != x {
      DistinctWithout(s[..|s| - 1], x);
      DistinctAppend(Without(s[..|s| - 1], x), s[|s| - 1]);
    } else if s != [] {
      DistinctWithout(s[..|s| - 1], x);
    }
  }

  lemma AddKeepsLists(ix: Index, c: ConnectionId, pk: Key32, st: SessionState)
    requires ListsAgree(ix.connToPk, ix.pkToConn) && c !in ix.connToPk
    ensures ListsAgree(AddConn(ix, c, pk, st).connToPk, AddConn(ix, c, pk, st).pkToConn)
  {
    var ix' := AddConn(ix, c, pk, st);
    assert !Listed(ix.connToPk, c, pk);
    DistinctAppend(ConnsOf(ix.pkToConn, pk), c);
    forall p, d ensures d in ConnsOf(ix'.pkToConn, p) <==> Listed(ix'.connToPk, d, p) {
      assert d in ConnsOf(ix.pkToConn, p) <==> Listed(ix.connToPk, d, p);
      assert c !in ConnsOf(ix.pkToConn, p) by { assert !Listed(ix.connToPk, c, p); }
    }
  }

  lemma AppendedTwice<T>(s: seq<T>, x: T)
    requires x in s
    ensures !Distinct(s + [x])
  {
    var i :| 0 <= i < |s| && s[i] == x;
    assert (s + [x])[i] == (s + [x])[|s|];
  }

  /** A connection id already indexed makes the lists disagree, whatever peer it is added for. */
  lemma AddTwiceBreaksLists(ix: Index, c: ConnectionId, pk: Key32, st: SessionState)
    requires ListsAgree(ix.connToPk, ix.pkToConn) && c in ix.connToPk
    ensures !ListsAgree(AddConn(ix, c, pk, st).connToPk, AddConn(ix, c, pk, st).pkToConn)
  {
    var ix', first := AddConn(ix, c, pk, st), ix.connToPk[c];
    assert Listed(ix.connToPk, c, first);
    assert c in ConnsOf(ix.pkToConn, first);
    if first == pk {
      AppendedTwice(ConnsOf(ix.pkToConn, pk), c);
      assert !Distinct(ix'.pkToConn[pk]);
    } else {
      assert c in ConnsOf(ix'.pkToConn, first) && !Listed(ix'.connToPk, c, first);
    }
  }

  lemma RemoveKeepsLists(ix: Index, c: ConnectionId)
    requires ListsAgree(ix.connToPk, ix.pkToConn)
    ensures ListsAgree(RemoveConn(ix, c).connToPk, RemoveConn(ix, c).pkToConn)
  {
    if c in ix.connToPk {
      var ix', pk := RemoveConn(ix, c), ix.connToPk[c];
      assert Listed(ix.connToPk, c, pk);
      assert c in ConnsOf(ix.pkToConn, pk);
      DistinctWithout(ConnsOf(ix.pkToConn, pk), c);
      forall p, d ensures d in ConnsOf(ix'.pkToConn, p) <==> Listed(ix'.connToPk, d, p) {
        assert d in ConnsOf(ix.pkToConn, p) <==> Listed(ix.connToPk, d, p);
      }
    }
  }

  /** Indexing a session keeps the maps in agreement if and only if its connection id is new. */
  lemma AddKeepsMapsIff(ix: Index, c: ConnectionId, pk: Key32, st: SessionState)
    requires MapsAgree(ix) && Sendable(c, st)
    ensures MapsAgree(AddConn(ix, c, pk, st)) <==> c !in ix.sessions
  {
    if c in ix.sessions {
      AddTwiceBreaksLists(ix, c, pk, st);
    } else {
      AddKeepsLists(ix, c, pk, st);
    }
  }

  lemma RemoveKeepsMaps(ix: Index, c: ConnectionId)
    requires MapsAgree(ix)
    ensures MapsAgree(RemoveConn(ix, c))
  {
    RemoveKeepsLists(ix, c);
  }

  // -------- every step --------

  /** The session a handshake packet brings into the index, if any. */
  function NewSession(s: Suite, rt: RuntimeState, i: Incoming): Option<SessionState>
    requires HandshakeReady(rt, i)
  {
    if Promotes(s, rt, i) then Some(Completed(s, rt, i).0)
    else if i.tag in rt.seenTags || Spawned(s, rt, i).None? then None
    else if Replied(s, rt, i).0.connectionId.Some? then Some(Replied(s, rt, i).0)
    else None
  }

  ghost predicate PendingOk(s: Suite, rt: RuntimeState) {
    forall t :: t in rt.pending ==>
      SR.SessionOk(s, rt.pending[t].0) && rt.pending[t].0.ourMasterPub.Some? && !rt.pending[t].0.responder
  }

  ghost predicate RuntimeOk(s: Suite, rt: RuntimeState) {
    MapsAgree(rt.index) && PendingOk(s, rt)
  }

  lemma NewSessionIsSendable(s: Suite, rt: RuntimeState, i: Incoming)
    requires HandshakeReady(rt, i) && PendingOk(s, rt)
    ensures var st := NewSession(s, rt, i);
            st.Some? ==> st.value.connectionId.Some? && Sendable(st.value.connectionId.value, st.value)
  {
    if Promotes(s, rt, i) {
      SR.CompleteKeepsSession(s, rt.pending[i.tag].0, i.finish, i.preSecret, i.now);
    }
  }

  /** The index after a tick: unchanged, or with the new session added for some peer. */
  ghost predicate AddsOne(ix: Index, ix': Index, st: SessionState) {
    st.connectionId.Some? && exists pk :: ix' == AddConn(ix, st.connectionId.value, pk, st)
  }

  lemma TickAddsNewSession(s: Suite, rt: RuntimeState, i: Incoming)
    requires HandshakeReady(rt, i)
    ensures match NewSession(s, rt, i)
            case None => HandshakeTick(s, rt, i).0.index == rt.index
            case Some(st) => AddsOne(rt.index, HandshakeTick(s, rt, i).0.index, st)
  {
    match NewSession(s, rt, i)
    case None =>
    case Some(st) =>
      var pk := if Promotes(s, rt, i) then OrZero(rt.pending[i.tag].1) else OrZero(st.peerMasterPub);
      assert HandshakeTick(s, rt, i).0.index == AddConn(rt.index, st.connectionId.value, pk, st);
  }

  // -------- the two ends of one handshake, as their runtimes see it --------

  /** The reply to a pending initiator's message comes in. */
  ghost predicate ReplyComesIn(s: Suite, x: SR.Exchange, rt: RuntimeState, i: Incoming) {
    && i.tag in rt.pending && rt.pending[i.tag] == (SR.Waiting(s, x), Some(x.expected))
    && rt.masterPub == Some(x.masterI)
    && i.finish == Success(HandshakeResult(x.hash, x.staticR, ReplyPayload(s, x.b0, x.certR)))
    && i.preSecret == x.a1 && i.now == x.nowI
  }

  /** The initiator's message comes in at the responder. */
  ghost predicate MessageComesIn(s: Suite, x: SR.Exchange, rt: RuntimeState, i: Incoming) {
    && !Completing(rt, i.tag) && i.tag !in rt.seenTags
    && rt.masterPub == Some(x.masterR) && rt.deviceCert == Some(x.certR)
    && i.message == Success(FirstPayload(s, x.a0, x.certI, x.masterI, x.addr))
    && i.replySecret == x.b0 && i.now == x.nowR
    && i.reply(ReplyPayload(s, x.b0, x.certR)).Success?
    && i.reply(ReplyPayload(s, x.b0, x.certR)).value.1 == HandshakeResult(x.hash, x.staticI, [])
  }

  /** The initiator's runtime indexes the session under the identity it expected and announces that identity. */
  lemma InitiatorNotice(s: Suite, x: SR.Exchange, rt: RuntimeState, i: Incoming)
    requires s.validKey(x.certR.ed25519) && ReplyComesIn(s, x, rt, i)
    requires x.certR.x25519 == x.staticR && Verifies(s, x.expected, x.certR)
    ensures HandshakeReady(rt, i)
    ensures var (rt', o) := HandshakeTick(s, rt, i);
            && rt'.index == AddConn(rt.index, s.connectionId(x.hash), x.expected, SR.InitiatorEnd(s, x))
            && o.notice == Some((x.expected, s.digest(SafetyInput(x.hash, x.masterI, x.expected))))
  {
    SR.InitiatorEndIs(s, x);
    assert Completed(s, rt, i).0 == SR.InitiatorEnd(s, x);
  }

  lemma RepliedIsResponderEnd(s: Suite, x: SR.Exchange, rt: RuntimeState, i: Incoming)
    requires s.validKey(x.certI.ed25519) && MessageComesIn(s, x, rt, i)
    ensures Spawned(s, rt, i).Some? && Replied(s, rt, i).0 == SR.ResponderEnd(s, x)
    ensures Replied(s, rt, i).0.peerMasterPub == Some(x.masterI)
  {
    SR.AcceptReadsInitiate(s, NewResponder(x.certR, x.masterR), x.a0, x.certI, x.masterI, x.addr);
  }

  /** The responder's runtime does the same with the identity the payload claims. */
  lemma ResponderNotice(s: Suite, x: SR.Exchange, rt: RuntimeState, i: Incoming)
    requires s.validKey(x.certI.ed25519) && MessageComesIn(s, x, rt, i) && x.certI.x25519 == x.staticI
    ensures HandshakeReady(rt, i)
    ensures var (rt', o) := HandshakeTick(s, rt, i);
            && rt'.index == AddConn(rt.index, s.connectionId(x.hash), x.masterI, SR.ResponderEnd(s, x))
            && o.notice == Some((x.masterI, s.digest(SafetyInput(x.hash, x.masterR, x.masterI))))
  {
    SR.ResponderEndIs(s, x);
    RepliedIsResponderEnd(s, x, rt, i);
  }

  /** The initiator's first packet: the Noise bytes of the first payload, under the tag, to the address known for the peer. */
  lemma FirstPacket(s: Suite, x: SR.Exchange, rt: RuntimeState, tag: ConnectionId, write: bytes -> Result<bytes, string>)
    requires tag in rt.pending && rt.pending[tag] == (NewInitiator(x.certI, x.masterI, x.expected), Some(x.expected))
    requires x.again.None? && x.expected in rt.pkToAddr && write(FirstPayload(s, x.a0, x.certI, x.masterI, x.addr)).Success?
    ensures var (rt', r) := BeginHandshake(s, rt, tag, x.addr, x.a0, write);
            && rt' == rt.(pending := rt'.pending) && tag in rt'.pending && rt'.pending[tag] == (SR.Waiting(s, x), Some(x.expected))
            && (forall u :: u in rt'.pending ==> u in rt.pending && (u != tag ==> rt'.pending[u] == rt.pending[u]))
            && r.Success? && r.value.1 == rt.pkToAddr[x.expected]
            && r.value.0.tag == Handshake && r.value.0.connectionId == tag
            && r.value.0.data == write(FirstPayload(s, x.a0, x.certI, x.masterI, x.addr)).value
  {
  }

  /** The responder's answer: the Noise bytes of the reply, under the tag of the packet it answers, to the address the initiator gave. */
  lemma ResponderAnswers(s: Suite, x: SR.Exchange, rt: RuntimeState, i: Incoming)
    requires s.validKey(x.certI.ed25519) && MessageComesIn(s, x, rt, i) && x.certI.x25519 == x.staticI
    ensures HandshakeReady(rt, i)
    ensures var o := HandshakeTick(s, rt, i).1;
            && o.reply.Some?
            && o.reply.value.0.tag == Handshake && o.reply.value.0.connectionId == i.tag
            && o.reply.value.0.data == i.reply(ReplyPayload(s, x.b0, x.certR)).value.0
            && o.reply.value.1 == SR.PlainAddr(x.addr)
  {
    SR.AcceptReadsInitiate(s, NewResponder(x.certR, x.masterR), x.a0, x.certI, x.masterI, x.addr);
  }

  /** What the responder's runtime notes of the initiator: its address, its device key, and that the tag has been used. */
  lemma ResponderNotes(s: Suite, x: SR.Exchange, rt: RuntimeState, i: Incoming)
    requires s.validKey(x.certI.ed25519) && MessageComesIn(s, x, rt, i) && x.certI.x25519 == x.staticI
    ensures HandshakeReady(rt, i)
    ensures var rt' := HandshakeTick(s, rt, i).0;
            && rt'.pkToAddr == rt.pkToAddr[x.masterI := SR.PlainAddr(x.addr)]
            && rt'.peerKeys == rt.peerKeys[i.sender := x.certI.ed25519]
            && rt'.seenTags == rt.seenTags + {i.tag} && rt'.pending == rt.pending
  {
    SR.AcceptReadsInitiate(s, NewResponder(x.certR, x.masterR), x.a0, x.certI, x.masterI, x.addr);
  }

  /** What the initiator's runtime notes of the responder; the session is no longer pending. */
  lemma InitiatorNotes(s: Suite, x: SR.Exchange, rt: RuntimeState, i: Incoming)
    requires s.validKey(x.certR.ed25519) && ReplyComesIn(s, x, rt, i)
    requires x.certR.x25519 == x.staticR && Verifies(s, x.expected, x.certR)
    ensures HandshakeReady(rt, i)
    ensures var (rt', o) := HandshakeTick(s, rt, i);
            && rt'.pending == rt.pending - {i.tag} && rt'.peerKeys == rt.peerKeys[i.sender := x.certR.ed25519]
            && rt'.seenTags == rt.seenTags && rt'.pkToAddr == rt.pkToAddr && o.reply == None
  {
    SR.CompleteReadsReply(s, x.b0, x.certR);
  }

  // -------- tags and acknowledgements --------

  /** A handshake packet is acknowledged if it asks for it, unless its tag was used before and it completes nothing. */
  lemma HandshakeAckedIff(s: Suite, rt: RuntimeState, i: Incoming)
    requires HandshakeReady(rt, i)
    ensures HandshakeTick(s, rt, i).1.acked <==> i.ackRequired && (Promotes(s, rt, i) || i.tag !in rt.seenTags)
  {
  }

  /** A packet whose tag has been used opens nothing and is not answered, unless it completes a pending session. */
  lemma UsedTagOpensNothing(s: Suite, rt: RuntimeState, i: Incoming)
    requires HandshakeReady(rt, i) && i.tag in rt.seenTags && !Promotes(s, rt, i)
    ensures var (rt', o) := HandshakeTick(s, rt, i);
            rt' == rt.(pending := rt'.pending) && o == Outcome(None, None, false)
  {
  }

  /** A tag counts as used from the moment a responder session is opened under it. */
  lemma OpeningUsesTag(s: Suite, rt: RuntimeState, i: Incoming)
    requires HandshakeReady(rt, i) && !Promotes(s, rt, i) && NewSession(s, rt, i).Some?
    ensures HandshakeTick(s, rt, i).0.seenTags == rt.seenTags + {i.tag}
  {
  }

  lemma StepKeepsTags(s: Suite, rt: RuntimeState, ev: Event)
    requires Ready(rt, ev)
    ensures rt.seenTags <= Step(s, rt, ev).seenTags
  {
    match ev
    case HandshakePacket(i) => TickKeepsTags(s, rt, i);
    case MessagePacket(m, wellFormed) => MessageKeepsTags(s, rt, m, wellFormed);
    case _ =>
  }

  lemma TickKeepsTags(s: Suite, rt: RuntimeState, i: Incoming)
    requires HandshakeReady(rt, i)
    ensures rt.seenTags <= HandshakeTick(s, rt, i).0.seenTags
  {
  }

  lemma MessageKeepsTags(s: Suite, rt: RuntimeState, m: MessageIn, wellFormed: bytes -> bool)
    ensures MessageTick(s, rt, m, wellFormed).0.seenTags == rt.seenTags
  {
  }

  lemma {:induction false} RunKeepsTags(s: Suite, rt: RuntimeState, evs: seq<Event>)
    requires AllowedRun(s, rt, evs)
    ensures rt.seenTags <= Run(s, rt, evs).seenTags
    decreases |evs|
  {
    if evs != [] {
      StepKeepsTags(s, rt, evs[0]);
      RunKeepsTags(s, Step(s, rt, evs[0]), evs[1..]);
    }
  }

  /** Over any run, a tag opens at most one responder session: afterwards a packet with it opens nothing unless it completes a pending one. */
  lemma OneSessionPerTag(s: Suite, rt: RuntimeState, i: Incoming, evs: seq<Event>, j: Incoming)
    requires HandshakeReady(rt, i) && !Promotes(s, rt, i) && NewSession(s, rt, i).Some? && j.tag == i.tag
    requires AllowedRun(s, HandshakeTick(s, rt, i).0, evs)
    requires var later := Run(s, HandshakeTick(s, rt, i).0, evs); HandshakeReady(later, j) && !Promotes(s, later, j)
    ensures var later := Run(s, HandshakeTick(s, rt, i).0, evs);
            HandshakeTick(s, later, j).0.index == later.index && HandshakeTick(s, later, j).1 == Outcome(None, None, false)
  {
    OpeningUsesTag(s, rt, i);
    RunKeepsTags(s, HandshakeTick(s, rt, i).0, evs);
    UsedTagOpensNothing(s, Run(s, HandshakeTick(s, rt, i).0, evs), j);
  }

  /** The session a tick adds is the one it is found to bring. */
  lemma NewSessionIs(s: Suite, rt: RuntimeState, i: Incoming, c: ConnectionId, pk: Key32, st: SessionState)
    requires HandshakeReady(rt, i) && c !in rt.index.sessions && HandshakeTick(s, rt, i).0.index == AddConn(rt.index, c, pk, st)
    ensures FreshConnection(rt, NewSession(s, rt, i))
  {
    TickAddsNewSession(s, rt, i);
    var ix' := HandshakeTick(s, rt, i).0.index;
    assert c in ix'.sessions;
    match NewSession(s, rt, i)
    case None =>
    case Some(new') =>
      var pk' :| ix' == AddConn(rt.index, new'.connectionId.value, pk', new');
      assert ix'.sessions.Keys == rt.index.sessions.Keys + {new'.connectionId.value};
  }

  /**
   * Two runtimes that each finished a handshake, perhaps not with each other: what the two applications are shown
   * digests the same bytes if and only if both handshakes have one hash, and the identities that the one has for
   * itself and its peer are those that the other has for its peer and itself.
   */
  lemma NoticesMatchIff(s: Suite, x: SR.Exchange, y: SR.Exchange, rtI: RuntimeState, i: Incoming, rtR: RuntimeState, j: Incoming)
    requires s.validKey(x.certR.ed25519) && s.validKey(y.certI.ed25519)
    requires ReplyComesIn(s, x, rtI, i) && x.certR.x25519 == x.staticR && Verifies(s, x.expected, x.certR)
    requires MessageComesIn(s, y, rtR, j) && y.certI.x25519 == y.staticI
    ensures HandshakeReady(rtI, i) && HandshakeReady(rtR, j)
    ensures var shownI, shownR := SafetyInput(x.hash, x.masterI, x.expected), SafetyInput(y.hash, y.masterR, y.masterI);
            && HandshakeTick(s, rtI, i).1.notice == Some((x.expected, s.digest(shownI)))
            && HandshakeTick(s, rtR, j).1.notice == Some((y.masterI, s.digest(shownR)))
            && (shownI == shownR <==> x.hash == y.hash && SR.SamePair(x.masterI, x.expected, y.masterR, y.masterI))
  {
    InitiatorNotice(s, x, rtI, i);
    ResponderNotice(s, y, rtR, j);
    SR.SafetyInputIff(x.hash, x.masterI, x.expected, y.hash, y.masterR, y.masterI);
  }

  /** A handshake packet keeps the maps in agreement if and only if it brings no session under a connection id already indexed. */
  lemma HandshakeKeepsMapsIff(s: Suite, rt: RuntimeState, i: Incoming)
    requires RuntimeOk(s, rt) && HandshakeReady(rt, i)
    ensures var st := NewSession(s, rt, i);
            MapsAgree(HandshakeTick(s, rt, i).0.index) <==>
              (st.Some? && st.value.connectionId.Some? ==> st.value.connectionId.value !in rt.index.sessions)
  {
    NewSessionIsSendable(s, rt, i);
    TickAddsNewSession(s, rt, i);
    var new' := NewSession(s, rt, i);
    if new'.Some? {
      var st := new'.value;
      var pk :| HandshakeTick(s, rt, i).0.index == AddConn(rt.index, st.connectionId.value, pk, st);
      AddKeepsMapsIff(rt.index, st.connectionId.value, pk, st);
    }
  }

  lemma RespondKeepsPending(s: Suite, rt: RuntimeState, i: Incoming)
    ensures Respond(s, rt, i).0.pending == rt.pending && Respond(s, rt, i).0.receivedKeys == rt.receivedKeys
  {
  }

  /** The pending sessions after a tick: only that of the packet's tag is touched. */
  function PendingAfter(s: Suite, rt: RuntimeState, i: Incoming): map<ConnectionId, (SessionState, Option<Key32>)>
    requires HandshakeReady(rt, i)
  {
    if Promotes(s, rt, i) then rt.pending - {i.tag}
    else if Completing(rt, i.tag) then rt.pending[i.tag := (Completed(s, rt, i).0, rt.pending[i.tag].1)]
    else rt.pending
  }

  lemma TickPending(s: Suite, rt: RuntimeState, i: Incoming)
    requires HandshakeReady(rt, i)
    ensures HandshakeTick(s, rt, i).0.pending == PendingAfter(s, rt, i)
    ensures HandshakeTick(s, rt, i).0.receivedKeys == rt.receivedKeys
  {
    if !Promotes(s, rt, i) {
      RespondKeepsPending(s, rt.(pending := PendingAfter(s, rt, i)), i);
      assert rt.(pending := rt.pending) == rt;
    }
  }

  lemma HandshakeKeepsPending(s: Suite, rt: RuntimeState, i: Incoming)
    requires PendingOk(s, rt) && HandshakeReady(rt, i)
    ensures PendingOk(s, HandshakeTick(s, rt, i).0)
  {
    TickPending(s, rt, i);
    if Completing(rt, i.tag) {
      CompletedStaysOk(s, rt.pending[i.tag].0, i);
    }
  }

  lemma CompletedStaysOk(s: Suite, st: SessionState, i: Incoming)
    requires SR.SessionOk(s, st) && CanComplete(st, i.finish)
    ensures var st' := CompleteHandshake(s, st, i.finish, i.preSecret, i.now).0;
            SR.SessionOk(s, st') && st'.ourMasterPub == st.ourMasterPub && st'.responder == st.responder
  {
    SR.CompleteKeepsSession(s, st, i.finish, i.preSecret, i.now);
  }

  lemma ReceiveStaysSendable(s: Suite, c: ConnectionId, st: SessionState, m: MessageIn)
    requires Sendable(c, st)
    ensures Sendable(c, ReceivePayload(s, st, m.payload, m.secret, m.now, m.victim).0)
  {
  }

  lemma DeduplicateKeepsIndex(s: Suite, rt: RuntimeState, inner: bytes, senderPk: Key32, m: MessageIn, wellFormed: bytes -> bool)
    ensures var rt' := Deduplicate(s, rt, inner, senderPk, m, wellFormed).0;
            rt'.index == rt.index && rt'.pending == rt.pending
  {
  }

  /** The index after a message packet: without its connection, or with its session moved on. */
  ghost predicate MessageMoved(s: Suite, ix: Index, ix': Index, m: MessageIn) {
    var c := m.payload.connectionId;
    || ix' == RemoveConn(ix, c)
    || (c in ix.sessions &&
        ix' == ix.(sessions := ix.sessions[c := ReceivePayload(s, ix.sessions[c], m.payload, m.secret, m.now, m.victim).0]))
  }

  lemma MessageIndex(s: Suite, rt: RuntimeState, m: MessageIn, wellFormed: bytes -> bool)
    ensures MessageTick(s, rt, m, wellFormed).0.pending == rt.pending
    ensures MessageMoved(s, rt.index, MessageTick(s, rt, m, wellFormed).0.index, m)
  {
    var c := m.payload.connectionId;
    if c in rt.index.sessions {
      var (st, received) := ReceivePayload(s, rt.index.sessions[c], m.payload, m.secret, m.now, m.victim);
      if received.Success? {
        DeduplicateKeepsIndex(s, rt.(index := rt.index.(sessions := rt.index.sessions[c := st])),
                              received.value.0, received.value.1, m, wellFormed);
      }
    }
  }

  lemma MessageKeepsMaps(s: Suite, rt: RuntimeState, m: MessageIn, wellFormed: bytes -> bool)
    requires MapsAgree(rt.index)
    ensures MapsAgree(MessageTick(s, rt, m, wellFormed).0.index)
  {
    var c := m.payload.connectionId;
    MessageIndex(s, rt, m, wellFormed);
    RemoveKeepsMaps(rt.index, c);
    if c in rt.index.sessions {
      ReceiveStaysSendable(s, c, rt.index.sessions[c], m);
    }
  }

  // -------- sending --------

  /** What one send does to an indexed session. */
  ghost predicate SentOn(s: Suite, before: SessionState, after: SessionState, p: Payload, inner: bytes, nonce: Nonce) {
    SendBytes(s, before, inner, nonce) == (after, Success(p))
  }

  lemma SendableSends(s: Suite, c: ConnectionId, st: SessionState, inner: bytes, nonce: Nonce)
    requires Sendable(c, st)
    ensures var (st', r) := SendBytes(s, st, inner, nonce);
            Sendable(c, st') && r.Success? && r.value.connectionId == c
  {
  }

  /** Over distinct indexed connections every session sends exactly once, under its own connection id; the others stay. */
  lemma {:induction false} SendOnAllConns(s: Suite, sessions: map<ConnectionId, SessionState>, conns: seq<ConnectionId>, inner: bytes, nonces: ConnectionId -> Nonce)
    requires AllSendable(sessions) && Distinct(conns) && forall c :: c in conns ==> c in sessions
    ensures var g := SendOn(s, sessions, conns, inner, nonces);
            && g.error.None? && |g.payloads| == |conns|
            && g.sessions.Keys == sessions.Keys && AllSendable(g.sessions)
            && (forall i :: 0 <= i < |conns| ==>
                  && g.payloads[i].connectionId == conns[i]
                  && SentOn(s, sessions[conns[i]], g.sessions[conns[i]], g.payloads[i], inner, nonces(conns[i])))
            && (forall c :: c in sessions && c !in conns ==> g.sessions[c] == sessions[c])
  {
    if conns != [] {
      var init, c := conns[..|conns| - 1], conns[|conns| - 1];
      SendOnAllConns(s, sessions, init, inner, nonces);
      var g := SendOn(s, sessions, init, inner, nonces);
      assert c !in init;
      SendableSends(s, c, sessions[c], inner, nonces(c));
    }
  }

  lemma IndexedConns(ix: Index, peer: Key32)
    requires MapsAgree(ix) && peer in ix.pkToConn
    ensures Distinct(ix.pkToConn[peer]) && forall c :: c in ix.pkToConn[peer] ==> c in ix.sessions
  {
    assert ix.pkToConn[peer] == ConnsOf(ix.pkToConn, peer);
    forall c | c in ix.pkToConn[peer] ensures c in ix.sessions {
      assert Listed(ix.connToPk, c, peer);
    }
  }

  /** `send_message` succeeds exactly for an indexed peer with a known address, and then sends once on each of its connections. */
  lemma SendReachesPeer(s: Suite, rt: RuntimeState, inner: bytes, peer: Key32, nonces: ConnectionId -> Nonce)
    requires MapsAgree(rt.index)
    ensures var (rt', payloads, r) := SendMessage(s, rt, inner, peer, nonces);
            && MapsAgree(rt'.index) && rt'.pending == rt.pending
            && (r.Success? <==> peer in rt.index.pkToConn && peer in rt.pkToAddr)
            && (r.Failure? ==> r.error != "no active session for peer" && rt' == rt)
            && (r.Success? ==>
                  && |payloads| == |rt.index.pkToConn[peer]| > 0
                  && forall i :: 0 <= i < |payloads| ==> payloads[i].connectionId == rt.index.pkToConn[peer][i])
  {
    if peer in rt.index.pkToConn && peer in rt.pkToAddr {
      IndexedConns(rt.index, peer);
      SendOnAllConns(s, rt.index.sessions, rt.index.pkToConn[peer], inner, nonces);
    }
  }

  // -------- runs --------

  datatype Event =
    | HandshakePacket(incoming: Incoming)
    | MessagePacket(message: MessageIn, wellFormed: bytes -> bool)
    | SendTo(inner: bytes, peer: Key32, nonces: ConnectionId -> Nonce)
    | NewPeer(peer: Key32, tag: ConnectionId)
    | SetMaster(master: Key32)
    | SetCert(cert: Certificate)
    | SetAddr(owner: Key32, at: SocketAddr)
    | StartHandshake(tag: ConnectionId, addr: SocketAddr, secret: Key32, write: bytes -> Result<bytes, string>)

  ghost predicate FreshConnection(rt: RuntimeState, st: Option<SessionState>) {
    st.Some? && st.value.connectionId.Some? ==> st.value.connectionId.value !in rt.index.sessions
  }

  /** Noise keeps its order. */
  predicate Ready(rt: RuntimeState, ev: Event) {
    ev.HandshakePacket? ==> HandshakeReady(rt, ev.incoming)
  }

  /** Noise keeps its order, and connection ids of new sessions are fresh. */
  ghost predicate Allowed(s: Suite, rt: RuntimeState, ev: Event) {
    Ready(rt, ev) && (ev.HandshakePacket? ==> FreshConnection(rt, NewSession(s, rt, ev.incoming)))
  }

  function Step(s: Suite, rt: RuntimeState, ev: Event): RuntimeState
    requires Ready(rt, ev)
  {
    match ev
    case HandshakePacket(i) => HandshakeTick(s, rt, i).0
    case MessagePacket(m, wellFormed) => MessageTick(s, rt, m, wellFormed).0
    case SendTo(inner, peer, nonces) => SendMessage(s, rt, inner, peer, nonces).0
    case NewPeer(peer, tag) =>
      if rt.masterPub.None? || rt.deviceCert.None? then rt
      else rt.(pending := rt.pending[tag := (NewInitiator(rt.deviceCert.value, rt.masterPub.value, peer), Some(peer))])
    case SetMaster(pk) => rt.(masterPub := Some(pk))
    case SetCert(cert) => rt.(deviceCert := Some(cert))
    case SetAddr(pk, addr) => rt.(pkToAddr := rt.pkToAddr[pk := addr])
    case StartHandshake(tag, addr, secret, write) => BeginHandshake(s, rt, tag, addr, secret, write).0
  }

  lemma StepKeepsMaps(s: Suite, rt: RuntimeState, ev: Event)
    requires RuntimeOk(s, rt) && Allowed(s, rt, ev)
    ensures MapsAgree(Step(s, rt, ev).index)
  {
    match ev
    case HandshakePacket(i) => HandshakeKeepsMapsIff(s, rt, i);
    case MessagePacket(m, wellFormed) => MessageKeepsMaps(s, rt, m, wellFormed);
    case SendTo(inner, peer, nonces) => SendReachesPeer(s, rt, inner, peer, nonces);
    case _ =>
  }

  lemma StepKeepsPending(s: Suite, rt: RuntimeState, ev: Event)
    requires PendingOk(s, rt) && Ready(rt, ev)
    ensures PendingOk(s, Step(s, rt, ev))
  {
    match ev
    case HandshakePacket(i) => HandshakeKeepsPending(s, rt, i);
    case MessagePacket(m, wellFormed) => MessageIndex(s, rt, m, wellFormed);
    case StartHandshake(tag, addr, secret, write) =>
      if tag in rt.pending {
        BeginKeepsPending(s, rt, tag, addr, secret, write);
      }
    case _ =>
  }

  lemma StepKeepsRuntime(s: Suite, rt: RuntimeState, ev: Event)
    requires RuntimeOk(s, rt) && Allowed(s, rt, ev)
    ensures RuntimeOk(s, Step(s, rt, ev))
  {
    StepKeepsMaps(s, rt, ev);
    StepKeepsPending(s, rt, ev);
  }

  lemma BeginKeepsPending(s: Suite, rt: RuntimeState, tag: ConnectionId, addr: SocketAddr, secret: Key32, write: bytes -> Result<bytes, string>)
    requires PendingOk(s, rt) && tag in rt.pending
    ensures var st := InitiateHandshake(s, rt.pending[tag].0, addr, secret, write).0;
            SR.SessionOk(s, st) && st.ourMasterPub.Some? && !st.responder
  {
  }

  ghost predicate AllowedRun(s: Suite, rt: RuntimeState, evs: seq<Event>)
    decreases |evs|
  {
    evs == [] || (Allowed(s, rt, evs[0]) && AllowedRun(s, Step(s, rt, evs[0]), evs[1..]))
  }

  function Run(s: Suite, rt: RuntimeState, evs: seq<Event>): RuntimeState
    requires AllowedRun(s, rt, evs)
    decreases |evs|
  {
    if evs == [] then rt else Run(s, Step(s, rt, evs[0]), evs[1..])
  }

  function Boot(masterPub: Option<Key32>, deviceCert: Option<Certificate>): RuntimeState {
    RuntimeState(Index(map[], map[], map[]), map[], map[], {}, map[], map[], masterPub, deviceCert)
  }

  lemma {:induction false} RunKeepsRuntime(s: Suite, rt: RuntimeState, evs: seq<Event>)
    requires RuntimeOk(s, rt) && AllowedRun(s, rt, evs)
    ensures RuntimeOk(s, Run(s, rt, evs))
    decreases |evs|
  {
    if evs != [] {
      StepKeepsRuntime(s, rt, evs[0]);
      RunKeepsRuntime(s, Step(s, rt, evs[0]), evs[1..]);
    }
  }

  /** In every reachable state the maps agree, and a send to an indexed peer never finds it without an active session. */
  lemma MapsAlwaysAgree(s: Suite, masterPub: Option<Key32>, deviceCert: Option<Certificate>, evs: seq<Event>, inner: bytes, peer: Key32, nonces: ConnectionId -> Nonce)
    requires AllowedRun(s, Boot(masterPub, deviceCert), evs)
    ensures var rt := Run(s, Boot(masterPub, deviceCert), evs);
            && MapsAgree(rt.index)
            && (SendMessage(s, rt, inner, peer, nonces).2.Success? <==> peer in rt.index.pkToConn && peer in rt.pkToAddr)
  {
    RunKeepsRuntime(s, Boot(masterPub, deviceCert), evs);
    SendReachesPeer(s, Run(s, Boot(masterPub, deviceCert), evs), inner, peer, nonces);
  }

  // -------- one delivery per digest and minute --------

  /** The runtime, the (digest, time) of every message handed over, and the clock. */
  datatype Inbox = Inbox(rt: RuntimeState, log: seq<(Key32, nat)>, clock: nat)

  /** What arrives: a message packet, or anything else that leaves the dedup map alone. */
  function Note(s: Suite, b: Inbox, ev: Event): Inbox
    requires Ready(b.rt, ev)
  {
    var rt := Step(s, b.rt, ev);
    match ev
    case MessagePacket(m, wellFormed) =>
      var d := MessageTick(s, b.rt, m, wellFormed).1;
      Inbox(rt, if d.message.Some? then b.log + [(DigestOf(s, b.rt, m), m.now)] else b.log, m.now)
    case _ => b.(rt := rt)
  }

  /** The digest under which a delivered message packet is deduplicated. */
  function DigestOf(s: Suite, rt: RuntimeState, m: MessageIn): Key32 {
    var c := m.payload.connectionId;
    if c !in rt.index.sessions then ZeroKey()
    else
      match ReceivePayload(s, rt.index.sessions[c], m.payload, m.secret, m.now, m.victim).1
      case Failure(_) => ZeroKey()
      case Success((inner, senderPk)) => if |inner| < 44 then ZeroKey() else DedupKey(s, senderPk, inner)
  }

  ghost predicate InTime(b: Inbox, ev: Event) {
    ev.MessagePacket? ==> ev.message.now >= b.clock
  }

  ghost predicate InboxOk(b: Inbox) {
    KeysOk(b.rt.receivedKeys, b.log, b.clock)
  }

  lemma OtherEventsKeepKeys(s: Suite, rt: RuntimeState, ev: Event)
    requires Ready(rt, ev) && !ev.MessagePacket?
    ensures Step(s, rt, ev).receivedKeys == rt.receivedKeys
  {
    match ev
    case HandshakePacket(i) => TickPending(s, rt, i);
    case _ =>
  }

  /** What a delivery attempt under digest k does to the dedup map: it succeeds only if k is not in it. */
  ghost predicate KeysTouched(keys: map<Key32, nat>, keys': map<Key32, nat>, k: Key32, delivered: bool, now: nat) {
    if delivered then k !in keys && keys' == Recent(keys, now)[k := now]
    else keys' == keys || keys' == Recent(keys, now)
  }

  lemma DeduplicateTouchesKeys(s: Suite, rt: RuntimeState, inner: bytes, senderPk: Key32, m: MessageIn, wellFormed: bytes -> bool)
    ensures var (rt', d) := Deduplicate(s, rt, inner, senderPk, m, wellFormed);
            if |inner| < 44 then rt'.receivedKeys == rt.receivedKeys && d.message.None?
            else KeysTouched(rt.receivedKeys, rt'.receivedKeys, DedupKey(s, senderPk, inner), d.message.Some?, m.now)
  {
  }

  lemma MessageTouchesKeys(s: Suite, rt: RuntimeState, m: MessageIn, wellFormed: bytes -> bool)
    ensures var (rt', d) := MessageTick(s, rt, m, wellFormed);
            KeysTouched(rt.receivedKeys, rt'.receivedKeys, DigestOf(s, rt, m), d.message.Some?, m.now)
  {
    var c := m.payload.connectionId;
    if c in rt.index.sessions {
      var (st, received) := ReceivePayload(s, rt.index.sessions[c], m.payload, m.secret, m.now, m.victim);
      if received.Success? {
        DeduplicateTouchesKeys(s, rt.(index := rt.index.(sessions := rt.index.sessions[c := st])),
                               received.value.0, received.value.1, m, wellFormed);
      }
    }
  }

  ghost predicate KeysOk(keys: map<Key32, nat>, log: seq<(Key32, nat)>, clock: nat) {
    && (forall k :: k in keys ==> keys[k] <= clock)
    && (forall e :: e in log ==> e.1 <= clock)
    && (forall e :: e in log ==> clock >= e.1 + DEDUP_WINDOW || (e.0 in keys && keys[e.0] >= e.1))
  }

  lemma TouchedKeysOk(keys: map<Key32, nat>, keys': map<Key32, nat>, log: seq<(Key32, nat)>, clock: nat, k: Key32, delivered: bool, now: nat)
    requires KeysOk(keys, log, clock) && clock <= now && KeysTouched(keys, keys', k, delivered, now)
    ensures KeysOk(keys', if delivered then log + [(k, now)] else log, now)
  {
  }

  lemma NoteKeepsInbox(s: Suite, b: Inbox, ev: Event)
    requires InboxOk(b) && Ready(b.rt, ev) && InTime(b, ev)
    ensures InboxOk(Note(s, b, ev))
  {
    match ev
    case MessagePacket(m, wellFormed) =>
      var (rt, d) := MessageTick(s, b.rt, m, wellFormed);
      MessageTouchesKeys(s, b.rt, m, wellFormed);
      TouchedKeysOk(b.rt.receivedKeys, rt.receivedKeys, b.log, b.clock, DigestOf(s, b.rt, m), d.message.Some?, m.now);
    case _ => OtherEventsKeepKeys(s, b.rt, ev);
  }

  ghost predicate InboxRun(s: Suite, b: Inbox, evs: seq<Event>)
    decreases |evs|
  {
    evs == [] || (Ready(b.rt, evs[0]) && InTime(b, evs[0]) && InboxRun(s, Note(s, b, evs[0]), evs[1..]))
  }

  function NoteAll(s: Suite, b: Inbox, evs: seq<Event>): Inbox
    requires InboxRun(s, b, evs)
    decreases |evs|
  {
    if evs == [] then b else NoteAll(s, Note(s, b, evs[0]), evs[1..])
  }

  lemma {:induction false} RunKeepsInbox(s: Suite, b: Inbox, evs: seq<Event>)
    requires InboxOk(b) && InboxRun(s, b, evs)
    ensures InboxOk(NoteAll(s, b, evs))
    decreases |evs|
  {
    if evs != [] {
      NoteKeepsInbox(s, b, evs[0]);
      RunKeepsInbox(s, Note(s, b, evs[0]), evs[1..]);
    }
  }

  /** After any run, a message whose digest was handed over before is handed over again only a minute or more later. */
  lemma OneDeliveryPerMinute(s: Suite, masterPub: Option<Key32>, deviceCert: Option<Certificate>, evs: seq<Event>, m: MessageIn, wellFormed: bytes -> bool, t: nat)
    requires InboxRun(s, Inbox(Boot(masterPub, deviceCert), [], 0), evs)
    requires m.now >= NoteAll(s, Inbox(Boot(masterPub, deviceCert), [], 0), evs).clock
    requires var b := NoteAll(s, Inbox(Boot(masterPub, deviceCert), [], 0), evs);
             (DigestOf(s, b.rt, m), t) in b.log
    ensures var b := NoteAll(s, Inbox(Boot(masterPub, deviceCert), [], 0), evs);
            MessageTick(s, b.rt, m, wellFormed).1.message.Some? ==> m.now >= t + DEDUP_WINDOW
  {
    var b := Inbox(Boot(masterPub, deviceCert), [], 0);
    RunKeepsInbox(s, b, evs);
    MessageTouchesKeys(s, NoteAll(s, b, evs).rt, m, wellFormed);
  }

  /** After any run, the map of received keys holds only digests that were handed over, each with the time it was. */
  ghost predicate KeysLogged(keys: map<Key32, nat>, log: seq<(Key32, nat)>) {
    forall k :: k in keys ==> (k, keys[k]) in log
  }

  lemma TouchedKeysLogged(keys: map<Key32, nat>, keys': map<Key32, nat>, log: seq<(Key32, nat)>, k: Key32, delivered: bool, now: nat)
    requires KeysLogged(keys, log) && KeysTouched(keys, keys', k, delivered, now)
    ensures KeysLogged(keys', if delivered then log + [(k, now)] else log)
  {
  }

  lemma NoteKeepsLogged(s: Suite, b: Inbox, ev: Event)
    requires KeysLogged(b.rt.receivedKeys, b.log) && Ready(b.rt, ev)
    ensures KeysLogged(Note(s, b, ev).rt.receivedKeys, Note(s, b, ev).log)
  {
    match ev
    case MessagePacket(m, wellFormed) =>
      var (rt, d) := MessageTick(s, b.rt, m, wellFormed);
      MessageTouchesKeys(s, b.rt, m, wellFormed);
      TouchedKeysLogged(b.rt.receivedKeys, rt.receivedKeys, b.log, DigestOf(s, b.rt, m), d.message.Some?, m.now);
    case _ => OtherEventsKeepKeys(s, b.rt, ev);
  }

  lemma {:induction false} RunKeepsLogged(s: Suite, b: Inbox, evs: seq<Event>)
    requires KeysLogged(b.rt.receivedKeys, b.log) && InboxRun(s, b, evs)
    ensures KeysLogged(NoteAll(s, b, evs).rt.receivedKeys, NoteAll(s, b, evs).log)
    decreases |evs|
  {
    if evs != [] {
      NoteKeepsLogged(s, b, evs[0]);
      RunKeepsLogged(s, Note(s, b, evs[0]), evs[1..]);
    }
  }

  /** What a session makes of a message packet, down to the plaintext inside: the plaintext, the sender's key, and the digest. */
  function Inside(s: Suite, rt: RuntimeState, m: MessageIn): Option<(bytes, Key32)> {
    var c := m.payload.connectionId;
    if c !in rt.index.sessions then None
    else
      match ReceivePayload(s, rt.index.sessions[c], m.payload, m.secret, m.now, m.victim).1
      case Failure(_) => None
      case Success((inner, senderPk)) =>
        if |inner| < 44 then None
        else if OpenBody(s, inner).None? then None
        else Some((OpenBody(s, inner).value, senderPk))
  }

  /** A message packet hands over what is inside if and only if it can be opened and parsed, and its digest is not remembered. */
  lemma HandedOverExactly(s: Suite, rt: RuntimeState, m: MessageIn, wellFormed: bytes -> bool)
    ensures MessageTick(s, rt, m, wellFormed).1.message ==
              if Inside(s, rt, m).Some? && wellFormed(Inside(s, rt, m).value.0) && DigestOf(s, rt, m) !in rt.receivedKeys
              then Inside(s, rt, m) else None
  {
  }

  /** After any run, a message whose digest was never handed over goes through, if it can be opened and parsed. */
  lemma NewDigestGoesThrough(s: Suite, masterPub: Option<Key32>, deviceCert: Option<Certificate>, evs: seq<Event>, m: MessageIn, wellFormed: bytes -> bool)
    requires InboxRun(s, Inbox(Boot(masterPub, deviceCert), [], 0), evs)
    requires var b := NoteAll(s, Inbox(Boot(masterPub, deviceCert), [], 0), evs);
             && (forall e :: e in b.log ==> e.0 != DigestOf(s, b.rt, m))
             && Inside(s, b.rt, m).Some? && wellFormed(Inside(s, b.rt, m).value.0)
    ensures var b := NoteAll(s, Inbox(Boot(masterPub, deviceCert), [], 0), evs);
            MessageTick(s, b.rt, m, wellFormed).1.message == Inside(s, b.rt, m)
  {
    var b := NoteAll(s, Inbox(Boot(masterPub, deviceCert), [], 0), evs);
    RunKeepsLogged(s, Inbox(Boot(masterPub, deviceCert), [], 0), evs);
    HandedOverExactly(s, b.rt, m, wellFormed);
  }

  /** Handing a message over prunes: afterwards every digest remembered is less than a minute old. */
  lemma HandingOverPrunes(s: Suite, rt: RuntimeState, m: MessageIn, wellFormed: bytes -> bool, k: Key32)
    requires MessageTick(s, rt, m, wellFormed).1.message.Some? && k in MessageTick(s, rt, m, wellFormed).0.receivedKeys
    ensures m.now < MessageTick(s, rt, m, wellFormed).0.receivedKeys[k] + 60_000_000_000
  {
    MessageTouchesKeys(s, rt, m, wellFormed);
  }

  /** A message packet is acknowledged if it asks for it and was handed over, or is a repeat of one that was. */
  lemma MessageAckedIff(s: Suite, rt: RuntimeState, m: MessageIn, wellFormed: bytes -> bool)
    ensures MessageTick(s, rt, m, wellFormed).1.acked <==>
              m.ackRequired && (MessageTick(s, rt, m, wellFormed).1.message.Some? || Repeats(s, rt, m))
  {
  }

  /** The packet carries a body whose digest is remembered. */
  predicate Repeats(s: Suite, rt: RuntimeState, m: MessageIn) {
    var c := m.payload.connectionId;
    && c in rt.index.sessions
    && var r := ReceivePayload(s, rt.index.sessions[c], m.payload, m.secret, m.now, m.victim).1;
       r.Success? && |r.value.0| >= 44 && DedupKey(s, r.value.1, r.value.0) in rt.receivedKeys
  }

  // -------- from one runtime to the other --------

  lemma BodyOpens(s: Suite, key: Key32, nonce: Nonce, message: bytes)
    requires Lawful(s)
    ensures var inner := MessageBody(s, key, nonce, message);
            |inner| >= 44 && inner[..32] == key && OpenBody(s, inner) == Some(message)
  {
    var inner := MessageBody(s, key, nonce, message);
    assert inner[..32] == key && inner[32..44] == nonce && inner[44..] == s.seal(key, nonce, message);
  }

  lemma FreshBodyIsDelivered(s: Suite, rt: RuntimeState, key: Key32, nonce: Nonce, message: bytes, pk: Key32, m: MessageIn, wellFormed: bytes -> bool)
    requires Lawful(s)
    ensures var d := Deduplicate(s, rt, MessageBody(s, key, nonce, message), pk, m, wellFormed).1;
            d.message == if s.digest(pk + key) !in rt.receivedKeys && wellFormed(message) then Some((message, pk)) else None
  {
    BodyOpens(s, key, nonce, message);
  }

  /** A message packet that its session cannot receive costs the connection: it leaves all three maps. */
  lemma FailedReceiveRemoves(s: Suite, rt: RuntimeState, m: MessageIn, wellFormed: bytes -> bool)
    requires m.payload.connectionId in rt.index.sessions
    requires ReceivePayload(s, rt.index.sessions[m.payload.connectionId], m.payload, m.secret, m.now, m.victim).1.Failure?
    ensures MessageTick(s, rt, m, wellFormed).0.index == RemoveConn(rt.index, m.payload.connectionId)
    ensures MessageTick(s, rt, m, wellFormed).1.message == None
  {
  }

  /** One that it can receive moves the session on and hands the body to the dedup step. */
  lemma ReceivedKeepsSession(s: Suite, rt: RuntimeState, m: MessageIn, wellFormed: bytes -> bool)
    requires m.payload.connectionId in rt.index.sessions
    requires ReceivePayload(s, rt.index.sessions[m.payload.connectionId], m.payload, m.secret, m.now, m.victim).1.Success?
    ensures var c := m.payload.connectionId;
            var (st, r) := ReceivePayload(s, rt.index.sessions[c], m.payload, m.secret, m.now, m.victim);
            var moved := rt.(index := rt.index.(sessions := rt.index.sessions[c := st]));
            && MessageTick(s, rt, m, wellFormed) == Deduplicate(s, moved, r.value.0, r.value.1, m, wellFormed)
            && MessageTick(s, rt, m, wellFormed).0.index == moved.index
  {
    var c := m.payload.connectionId;
    var (st, r) := ReceivePayload(s, rt.index.sessions[c], m.payload, m.secret, m.now, m.victim);
    DeduplicateKeepsIndex(s, rt.(index := rt.index.(sessions := rt.index.sessions[c := st])), r.value.0, r.value.1, m, wellFormed);
  }

  /** The session of connection c, if it is still indexed, has this ratchet and sends under this master key. */
  ghost predicate Holds(rt: RuntimeState, c: ConnectionId, ratchet: RatchetState, master: Key32) {
    c in rt.index.sessions ==> rt.index.sessions[c].ratchet == Some(ratchet) && rt.index.sessions[c].ourMasterPub == Some(master)
  }

  /** What one message packet does to its connection, given what its session makes of it. */
  lemma PacketOutcome(s: Suite, rt: RuntimeState, m: MessageIn, wellFormed: bytes -> bool, key: Key32, nonce: Nonce, message: bytes, pk: Key32)
    requires Lawful(s) && m.payload.connectionId in rt.index.sessions
    requires var r := ReceivePayload(s, rt.index.sessions[m.payload.connectionId], m.payload, m.secret, m.now, m.victim).1;
             r.Success? ==> r.value == (MessageBody(s, key, nonce, message), pk)
    ensures var c := m.payload.connectionId;
            var (st, r) := ReceivePayload(s, rt.index.sessions[c], m.payload, m.secret, m.now, m.victim);
            var (rt', d) := MessageTick(s, rt, m, wellFormed);
            && (d.message == if r.Success? && s.digest(pk + key) !in rt.receivedKeys && wellFormed(message) then Some((message, pk)) else None)
            && (c in rt'.index.sessions <==> r.Success?)
            && (r.Success? ==> rt'.index.sessions[c] == st)
  {
    var c := m.payload.connectionId;
    var (st, r) := ReceivePayload(s, rt.index.sessions[c], m.payload, m.secret, m.now, m.victim);
    if r.Success? {
      ReceivedKeepsSession(s, rt, m, wellFormed);
      FreshBodyIsDelivered(s, rt.(index := rt.index.(sessions := rt.index.sessions[c := st])), key, nonce, message, pk, m, wellFormed);
    } else {
      FailedReceiveRemoves(s, rt, m, wellFormed);
    }
  }

  /**
   * One delivery to a session that is still indexed and in step with its peer: the runtime hands over exactly
   * what the peer sealed, under the peer's master key, if and only if it is a first delivery in reach, its digest
   * is new, and it parses. The connection survives if and only if it is a first delivery in reach.
   */
  lemma MessageArrives(s: Suite, shared: Key32, w: A.World, k: nat, rt: RuntimeState, conn: ConnectionId, pk: Key32,
                       key: Key32, nonce: Nonce, message: bytes, m: MessageIn, wellFormed: bytes -> bool, master: Key32)
    requires Lawful(s) && A.Inv(s, shared, w) && A.Allowed(s, w, A.Deliver(k, m.secret, m.now, m.victim))
    requires conn in rt.index.sessions && Holds(rt, conn, A.Side(w, A.Receiver(w.network[k])), master)
    requires w.network[k].envelope.number <= U32_MAX && w.network[k].plaintext == pk + MessageBody(s, key, nonce, message)
    requires m.payload == MessagePayload(conn, Frame(w.network[k].envelope))
    ensures var (rt', d) := MessageTick(s, rt, m, wellFormed);
            var w' := A.DeliverMessage(s, w, w.network[k], m.secret, m.now, m.victim).0;
            && (d.message == if A.FirstInReach(w, w.network[k]) && s.digest(pk + key) !in rt.receivedKeys && wellFormed(message)
                             then Some((message, pk)) else None)
            && (conn in rt'.index.sessions <==> A.FirstInReach(w, w.network[k]))
            && Holds(rt', conn, A.Side(w', A.Receiver(w.network[k])), master)
  {
    var st := rt.index.sessions[conn];
    SR.SessionDelivers(s, shared, w, k, st, conn, pk, MessageBody(s, key, nonce, message), m.secret, m.now, m.victim);
    ReceiveKeepsMaster(s, st, m);
    PacketOutcome(s, rt, m, wellFormed, key, nonce, message, pk);
  }

  lemma ReceiveKeepsMaster(s: Suite, st: SessionState, m: MessageIn)
    ensures ReceivePayload(s, st, m.payload, m.secret, m.now, m.victim).0.ourMasterPub == st.ourMasterPub
  {
  }
}
