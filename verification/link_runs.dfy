/**
 * Two runtimes talking over one connection, with everything else they do in between. A message packet that a
 * session cannot receive costs the connection, so one delivery that is not a first delivery in reach silences
 * its receiver for good.
 */
module LinkRuns {
  import opened Wrappers
  import opened Bytes
  import opened Contacts
  import opened Crypto
  import opened Chains
  import opened Ratchets
  import opened Packets
  import opened Sessions
  import opened Runtimes
  import A = Agreement
  import SR = SessionRuns
  import RR = RuntimeRuns

  /** The connection id both ends derived, and the master keys they send under. */
  datatype Ends = Ends(conn: ConnectionId, masterI: Key32, masterR: Key32)

  /** What an application hands to `send_message`, with the random key and nonce of its body. */
  datatype Post = Post(key: Key32, nonce: Nonce, message: bytes)

  /**
   * Both runtimes; the packets their sends put on the wire for this connection, and what was posted in each;
   * and the two-party system that describes the ratchets.
   */
  datatype Link = Link(initiator: RuntimeState, responder: RuntimeState, wire: seq<Payload>, posts: seq<Post>, world: A.World)

  datatype Event =
    | Posting(sender: A.Party, peer: Key32, post: Post, nonces: ConnectionId -> Nonce)
    | Arriving(index: nat, ackRequired: bool, secret: Key32, now: nat, victim: Option<Key32>, wellFormed: bytes -> bool)
    | Elsewhere(party: A.Party, event: RR.Event)

  function Rt(l: Link, p: A.Party): RuntimeState {
    if p == A.Initiator then l.initiator else l.responder
  }

  function WithRt(l: Link, p: A.Party, rt: RuntimeState): Link {
    if p == A.Initiator then l.(initiator := rt) else l.(responder := rt)
  }

  function Master(ends: Ends, p: A.Party): Key32 {
    if p == A.Initiator then ends.masterI else ends.masterR
  }

  function Body(s: Suite, post: Post): bytes {
    MessageBody(s, post.key, post.nonce, post.message)
  }

  /** The party still has the connection. */
  predicate Alive(ends: Ends, l: Link, p: A.Party) {
    ends.conn in Rt(l, p).index.sessions
  }

  /** The packet a send put out on this connection, if any. */
  function PayloadOn(payloads: seq<Payload>, conn: ConnectionId): Option<Payload> {
    if payloads == [] then None
    else if payloads[|payloads| - 1].connectionId == conn then Some(payloads[|payloads| - 1])
    else PayloadOn(payloads[..|payloads| - 1], conn)
  }

  // -------- steps --------

  ghost predicate Ready(l: Link, ev: Event) {
    && |l.world.keys| > 1
    && (ev.Arriving? ==> ev.index < |l.wire| == |l.world.network|)
    && (ev.Elsewhere? ==> RR.Ready(Rt(l, ev.party), ev.event))
  }

  function Posted(s: Suite, ends: Ends, l: Link, p: A.Party, peer: Key32, post: Post, nonces: ConnectionId -> Nonce): Link
    requires |l.world.keys| > 1
  {
    var (rt, payloads, _) := SendMessage(s, Rt(l, p), Body(s, post), peer, nonces);
    var l1 := WithRt(l, p, rt);
    match PayloadOn(payloads, ends.conn)
    case None => l1
    case Some(payload) =>
      l1.(wire := l.wire + [payload], posts := l.posts + [post],
          world := A.SendMessage(s, l.world, p, Master(ends, p) + Body(s, post), nonces(ends.conn)))
  }

  function Packet(l: Link, ev: Event): MessageIn
    requires ev.Arriving? && ev.index < |l.wire|
  {
    MessageIn(l.wire[ev.index], ev.ackRequired, ev.secret, ev.now, ev.victim)
  }

  /** Who gets the packet an arrival delivers. */
  function To(l: Link, ev: Event): A.Party
    requires ev.Arriving? && ev.index < |l.world.network|
  {
    A.Receiver(l.world.network[ev.index])
  }

  function Arrived(s: Suite, ends: Ends, l: Link, ev: Event): (Link, Delivery)
    requires ev.Arriving? && Ready(l, ev)
  {
    var p := To(l, ev);
    var (rt, d) := MessageTick(s, Rt(l, p), Packet(l, ev), ev.wellFormed);
    var l1 := WithRt(l, p, rt);
    (if Alive(ends, l, p)
     then l1.(world := A.DeliverMessage(s, l.world, l.world.network[ev.index], ev.secret, ev.now, ev.victim).0)
     else l1,
     d)
  }

  function Step(s: Suite, ends: Ends, l: Link, ev: Event): Link
    requires Ready(l, ev)
  {
    match ev
    case Posting(p, peer, post, nonces) => Posted(s, ends, l, p, peer, post, nonces)
    case Arriving(_, _, _, _, _, _) => Arrived(s, ends, l, ev).0
    case Elsewhere(p, e) => WithRt(l, p, RR.Step(s, Rt(l, p), e))
  }

  /** An event of one runtime that has nothing to do with this connection. */
  ghost predicate Avoids(s: Suite, conn: ConnectionId, rt: RuntimeState, e: RR.Event)
    requires RR.Ready(rt, e)
  {
    match e
    case HandshakePacket(i) => RR.NewSession(s, rt, i).Some? ==> RR.NewSession(s, rt, i).value.connectionId != Some(conn)
    case MessagePacket(m, _) => m.payload.connectionId != conn
    case SendTo(_, peer, _) => conn !in ConnsOf(rt.index.pkToConn, peer)
    case _ => true
  }

  /** To a party that still has the connection, packets come in epoch order; counters do not overflow. */
  ghost predicate Allowed(s: Suite, ends: Ends, l: Link, ev: Event) {
    && Ready(l, ev)
    && match ev
       case Posting(p, _, _, _) => A.Side(l.world, p).sendingChain.messageNumber < U32_MAX
       case Arriving(k, _, secret, now, victim, _) =>
         Alive(ends, l, To(l, ev)) ==> A.Allowed(s, l.world, A.Deliver(k, secret, now, victim))
       case Elsewhere(p, e) => RR.Allowed(s, Rt(l, p), e) && Avoids(s, ends.conn, Rt(l, p), e)
  }

  // -------- the invariant --------

  /** What the k-th packet carries. */
  ghost predicate PostOk(s: Suite, ends: Ends, m: A.Message, post: Post, payload: Payload) {
    && m.envelope.number <= U32_MAX
    && m.plaintext == Master(ends, A.Other(A.Receiver(m))) + Body(s, post)
    && payload == MessagePayload(ends.conn, Frame(m.envelope))
  }

  ghost predicate PostsOk(s: Suite, ends: Ends, network: seq<A.Message>, posts: seq<Post>, wire: seq<Payload>) {
    && |posts| == |wire| == |network|
    && forall k :: 0 <= k < |network| ==> PostOk(s, ends, network[k], posts[k], wire[k])
  }

  /** A runtime in order whose session on this connection, if it is still there, has the given ratchet. */
  ghost predicate EndOk(s: Suite, conn: ConnectionId, master: Key32, rt: RuntimeState, ratchet: RatchetState) {
    RR.RuntimeOk(s, rt) && RR.Holds(rt, conn, ratchet, master)
  }

  ghost predicate SideOk(s: Suite, ends: Ends, l: Link, p: A.Party) {
    EndOk(s, ends.conn, Master(ends, p), Rt(l, p), A.Side(l.world, p))
  }

  ghost predicate LinkOk(s: Suite, shared: Key32, ends: Ends, l: Link) {
    && A.Inv(s, shared, l.world)
    && PostsOk(s, ends, l.world.network, l.posts, l.wire)
    && SideOk(s, ends, l, A.Initiator) && SideOk(s, ends, l, A.Responder)
  }

  // -------- posting --------

  lemma {:induction false} PayloadOnConn(payloads: seq<Payload>, conns: seq<ConnectionId>, conn: ConnectionId)
    requires |payloads| == |conns| && Distinct(conns)
    requires forall i :: 0 <= i < |conns| ==> payloads[i].connectionId == conns[i]
    ensures PayloadOn(payloads, conn).Some? <==> conn in conns
    ensures forall i :: 0 <= i < |conns| && conns[i] == conn ==> PayloadOn(payloads, conn) == Some(payloads[i])
  {
    if conns != [] {
      var last := |conns| - 1;
      PayloadOnConn(payloads[..last], conns[..last], conn);
      assert conns == conns[..last] + [conns[last]];
    }
  }

  /** What a send does to this connection: one packet of its session if the peer is reached over it, else nothing. */
  lemma SendOverConn(s: Suite, rt: RuntimeState, conn: ConnectionId, inner: bytes, peer: Key32, nonces: ConnectionId -> Nonce)
    requires RR.RuntimeOk(s, rt)
    ensures var (rt', payloads, _) := SendMessage(s, rt, inner, peer, nonces);
            && RR.RuntimeOk(s, rt')
            && rt'.index.sessions.Keys == rt.index.sessions.Keys
            && match PayloadOn(payloads, conn)
               case Some(payload) =>
                 && conn in rt.index.sessions
                 && SendBytes(s, rt.index.sessions[conn], inner, nonces(conn)) == (rt'.index.sessions[conn], Success(payload))
               case None => conn in rt.index.sessions ==> rt'.index.sessions[conn] == rt.index.sessions[conn]
  {
    RR.StepKeepsRuntime(s, rt, RR.SendTo(inner, peer, nonces));
    if peer in rt.index.pkToConn && peer in rt.pkToAddr {
      var conns := rt.index.pkToConn[peer];
      var g := SendOn(s, rt.index.sessions, conns, inner, nonces);
      RR.IndexedConns(rt.index, peer);
      RR.SendOnAllConns(s, rt.index.sessions, conns, inner, nonces);
      PayloadOnConn(g.payloads, conns, conn);
      if conn in conns {
        var i :| 0 <= i < |conns| && conns[i] == conn;
        assert RR.SentOn(s, rt.index.sessions[conns[i]], g.sessions[conns[i]], g.payloads[i], inner, nonces(conns[i]));
      }
    }
  }

  lemma SenderOwns(w: A.World, p: A.Party)
    requires |w.keys| > 1
    ensures A.Owner(A.SendingEpoch(w, p)) == p && A.Owner(A.SendingEpoch(w, p) + 1) == A.Other(p) && A.Other(A.Other(p)) == p
  {
  }

  lemma PostOneMore(s: Suite, ends: Ends, network: seq<A.Message>, posts: seq<Post>, wire: seq<Payload>, m: A.Message, post: Post, payload: Payload)
    requires PostsOk(s, ends, network, posts, wire) && PostOk(s, ends, m, post, payload)
    ensures PostsOk(s, ends, network + [m], posts + [post], wire + [payload])
  {
  }

  /** A packet that went out over the connection is a send of the two-party system. */
  lemma SentIsPosted(s: Suite, ends: Ends, w: A.World, p: A.Party, st: SessionState, post: Post, nonce: Nonce)
    requires |w.keys| > 1 && RR.Sendable(ends.conn, st)
    requires st.ratchet == Some(A.Side(w, p)) && st.ourMasterPub == Some(Master(ends, p))
    requires A.Side(w, p).sendingChain.messageNumber < U32_MAX
    ensures var (st', r) := SendBytes(s, st, Body(s, post), nonce);
            var w' := A.SendMessage(s, w, p, Master(ends, p) + Body(s, post), nonce);
            && r.Success? && st'.ratchet == Some(A.Side(w', p)) && st'.ourMasterPub == st.ourMasterPub
            && |w'.network| == |w.network| + 1 && w'.network == w.network + [w'.network[|w.network|]]
            && PostOk(s, ends, w'.network[|w.network|], post, r.value)
            && A.Side(w', A.Other(p)) == A.Side(w, A.Other(p)) && w'.keys == w.keys
  {
    SR.SessionSends(s, w, p, st, Body(s, post), nonce);
    SenderOwns(w, p);
  }

  /** The two-party system after a post: one more send, or unchanged. */
  ghost predicate WorldPosted(s: Suite, ends: Ends, w: A.World, w': A.World, p: A.Party, post: Post, nonce: Nonce)
    requires |w.keys| > 1
  {
    w' == w || w' == A.SendMessage(s, w, p, Master(ends, p) + Body(s, post), nonce)
  }

  lemma PosterEnd(s: Suite, ends: Ends, l: Link, p: A.Party, peer: Key32, post: Post, nonces: ConnectionId -> Nonce)
    requires |l.world.keys| > 1 && SideOk(s, ends, l, p) && A.Side(l.world, p).sendingChain.messageNumber < U32_MAX
    requires PostsOk(s, ends, l.world.network, l.posts, l.wire)
    ensures var l' := Posted(s, ends, l, p, peer, post, nonces);
            && SideOk(s, ends, l', p) && (Alive(ends, l', p) <==> Alive(ends, l, p))
            && Rt(l', A.Other(p)) == Rt(l, A.Other(p)) && A.Side(l'.world, A.Other(p)) == A.Side(l.world, A.Other(p))
            && PostsOk(s, ends, l'.world.network, l'.posts, l'.wire)
            && WorldPosted(s, ends, l.world, l'.world, p, post, nonces(ends.conn))
  {
    var rt := Rt(l, p);
    SendOverConn(s, rt, ends.conn, Body(s, post), peer, nonces);
    match PayloadOn(SendMessage(s, rt, Body(s, post), peer, nonces).1, ends.conn)
    case Some(payload) =>
      SentIsPosted(s, ends, l.world, p, rt.index.sessions[ends.conn], post, nonces(ends.conn));
      var w' := A.SendMessage(s, l.world, p, Master(ends, p) + Body(s, post), nonces(ends.conn));
      PostOneMore(s, ends, l.world.network, l.posts, l.wire, w'.network[|l.world.network|], post, payload);
    case None =>
  }

  /** The other end stays as it was, and so does everything about it. */
  lemma OtherEnd(s: Suite, ends: Ends, l: Link, l': Link, q: A.Party)
    requires SideOk(s, ends, l, q) && Rt(l', q) == Rt(l, q) && A.Side(l'.world, q) == A.Side(l.world, q)
    ensures SideOk(s, ends, l', q) && (Alive(ends, l', q) <==> Alive(ends, l, q))
  {
  }

  lemma EitherSide(s: Suite, shared: Key32, ends: Ends, l: Link, p: A.Party)
    requires LinkOk(s, shared, ends, l)
    ensures |l.world.keys| > 2 && SideOk(s, ends, l, p) && SideOk(s, ends, l, A.Other(p))
  {
  }

  lemma PostingKeepsLink(s: Suite, shared: Key32, ends: Ends, l: Link, p: A.Party, peer: Key32, post: Post, nonces: ConnectionId -> Nonce)
    requires LinkOk(s, shared, ends, l) && A.Side(l.world, p).sendingChain.messageNumber < U32_MAX
    ensures LinkOk(s, shared, ends, Posted(s, ends, l, p, peer, post, nonces))
  {
    EitherSide(s, shared, ends, l, p);
    PosterEnd(s, ends, l, p, peer, post, nonces);
    var l' := Posted(s, ends, l, p, peer, post, nonces);
    OtherEnd(s, ends, l, l', A.Other(p));
    BothSides(s, ends, l', p);
    A.SendKeepsInv(s, shared, l.world, p, Master(ends, p) + Body(s, post), nonces(ends.conn));
  }

  lemma PostingKeepsAlive(s: Suite, shared: Key32, ends: Ends, l: Link, p: A.Party, peer: Key32, post: Post, nonces: ConnectionId -> Nonce, q: A.Party)
    requires LinkOk(s, shared, ends, l) && A.Side(l.world, p).sendingChain.messageNumber < U32_MAX
    ensures Alive(ends, Posted(s, ends, l, p, peer, post, nonces), q) <==> Alive(ends, l, q)
  {
    EitherSide(s, shared, ends, l, p);
    PosterEnd(s, ends, l, p, peer, post, nonces);
  }

  lemma BothSides(s: Suite, ends: Ends, l: Link, p: A.Party)
    requires SideOk(s, ends, l, p) && SideOk(s, ends, l, A.Other(p))
    ensures SideOk(s, ends, l, A.Initiator) && SideOk(s, ends, l, A.Responder)
  {
  }

  // -------- arriving --------

  /** What becomes of the connection and of the message when a packet arrives at a party that still has it. */
  lemma ArrivesAtLive(s: Suite, shared: Key32, ends: Ends, l: Link, ev: Event)
    requires Lawful(s) && LinkOk(s, shared, ends, l) && ev.Arriving? && Allowed(s, ends, l, ev) && Alive(ends, l, To(l, ev))
    ensures var (l', d) := Arrived(s, ends, l, ev);
            var p, m, post := To(l, ev), l.world.network[ev.index], l.posts[ev.index];
            && (d.message == if A.FirstInReach(l.world, m) && s.digest(Master(ends, A.Other(p)) + post.key) !in Rt(l, p).receivedKeys
                                && ev.wellFormed(post.message)
                             then Some((post.message, Master(ends, A.Other(p)))) else None)
            && (Alive(ends, l', p) <==> A.FirstInReach(l.world, m))
            && RR.Holds(Rt(l', p), ends.conn, A.Side(l'.world, p), Master(ends, p))
  {
    var p, m, post := To(l, ev), l.world.network[ev.index], l.posts[ev.index];
    EitherSide(s, shared, ends, l, p);
    assert PostOk(s, ends, m, post, l.wire[ev.index]);
    RR.MessageArrives(s, shared, l.world, ev.index, Rt(l, p), ends.conn, Master(ends, A.Other(p)), post.key, post.nonce, post.message,
                      Packet(l, ev), ev.wellFormed, Master(ends, p));
  }

  /** At a party that has lost the connection a packet changes nothing and yields nothing. */
  lemma ArrivesAtDead(s: Suite, shared: Key32, ends: Ends, l: Link, ev: Event)
    requires LinkOk(s, shared, ends, l) && ev.Arriving? && Ready(l, ev) && !Alive(ends, l, To(l, ev))
    ensures var (l', d) := Arrived(s, ends, l, ev);
            && d.message == None && !Alive(ends, l', To(l, ev)) && l'.world == l.world
  {
    assert PostOk(s, ends, l.world.network[ev.index], l.posts[ev.index], l.wire[ev.index]);
  }

  lemma ReceiverRuntimeOk(s: Suite, ends: Ends, l: Link, ev: Event)
    requires ev.Arriving? && Ready(l, ev) && RR.RuntimeOk(s, Rt(l, To(l, ev)))
    ensures RR.RuntimeOk(s, MessageTick(s, Rt(l, To(l, ev)), Packet(l, ev), ev.wellFormed).0)
  {
    RR.StepKeepsRuntime(s, Rt(l, To(l, ev)), RR.MessagePacket(Packet(l, ev), ev.wellFormed));
  }

  lemma InvAfterArrival(s: Suite, shared: Key32, ends: Ends, l: Link, ev: Event)
    requires Lawful(s) && LinkOk(s, shared, ends, l) && ev.Arriving? && Allowed(s, ends, l, ev)
    ensures A.Inv(s, shared, Arrived(s, ends, l, ev).0.world)
  {
    if Alive(ends, l, To(l, ev)) {
      A.DeliverAgrees(s, shared, l.world, ev.index, ev.secret, ev.now, ev.victim);
    }
  }

  /** An arrival touches nothing of the other end, and nothing that was posted. */
  lemma ArrivalIsLocal(s: Suite, ends: Ends, l: Link, ev: Event)
    requires ev.Arriving? && Ready(l, ev)
    ensures var l', p := Arrived(s, ends, l, ev).0, To(l, ev);
            && l'.world.network == l.world.network && l'.posts == l.posts && l'.wire == l.wire
            && A.Side(l'.world, A.Other(p)) == A.Side(l.world, A.Other(p)) && Rt(l', A.Other(p)) == Rt(l, A.Other(p))
  {
    A.DeliveryIsDecryption(s, l.world, l.world.network[ev.index], ev.secret, ev.now, ev.victim);
  }

  lemma ReceiverEnd(s: Suite, shared: Key32, ends: Ends, l: Link, ev: Event)
    requires Lawful(s) && LinkOk(s, shared, ends, l) && ev.Arriving? && Allowed(s, ends, l, ev)
    ensures SideOk(s, ends, Arrived(s, ends, l, ev).0, To(l, ev))
  {
    EitherSide(s, shared, ends, l, To(l, ev));
    ReceiverRuntimeOk(s, ends, l, ev);
    if Alive(ends, l, To(l, ev)) {
      ArrivesAtLive(s, shared, ends, l, ev);
    } else {
      ArrivesAtDead(s, shared, ends, l, ev);
    }
  }

  lemma ArrivalKeepsLink(s: Suite, shared: Key32, ends: Ends, l: Link, ev: Event)
    requires Lawful(s) && LinkOk(s, shared, ends, l) && ev.Arriving? && Allowed(s, ends, l, ev)
    ensures LinkOk(s, shared, ends, Arrived(s, ends, l, ev).0)
  {
    var l', p := Arrived(s, ends, l, ev).0, To(l, ev);
    EitherSide(s, shared, ends, l, p);
    InvAfterArrival(s, shared, ends, l, ev);
    ArrivalIsLocal(s, ends, l, ev);
    ReceiverEnd(s, shared, ends, l, ev);
    OtherEnd(s, ends, l, l', A.Other(p));
    BothSides(s, ends, l', p);
  }

  /** A party keeps the connection through an arrival unless the packet is for it and not a first delivery in reach. */
  lemma AliveAfterArrival(s: Suite, shared: Key32, ends: Ends, l: Link, ev: Event, q: A.Party)
    requires Lawful(s) && LinkOk(s, shared, ends, l) && ev.Arriving? && Allowed(s, ends, l, ev)
    ensures Alive(ends, Arrived(s, ends, l, ev).0, q) <==>
              Alive(ends, l, q) && (To(l, ev) == q ==> A.FirstInReach(l.world, l.world.network[ev.index]))
  {
    if Alive(ends, l, To(l, ev)) {
      ArrivesAtLive(s, shared, ends, l, ev);
    } else {
      ArrivesAtDead(s, shared, ends, l, ev);
    }
    ArrivalIsLocal(s, ends, l, ev);
  }

  // -------- everything else --------

  /** The session of the connection is as it was, there or not. */
  ghost predicate SameConn(conn: ConnectionId, rt: RuntimeState, rt': RuntimeState) {
    && (conn in rt'.index.sessions <==> conn in rt.index.sessions)
    && (conn in rt.index.sessions ==> rt'.index.sessions[conn] == rt.index.sessions[conn])
  }

  lemma HandshakeAvoids(s: Suite, conn: ConnectionId, rt: RuntimeState, i: Incoming)
    requires HandshakeReady(rt, i) && Avoids(s, conn, rt, RR.HandshakePacket(i))
    ensures SameConn(conn, rt, HandshakeTick(s, rt, i).0)
  {
    RR.TickAddsNewSession(s, rt, i);
  }

  lemma MessageAvoids(s: Suite, conn: ConnectionId, rt: RuntimeState, m: MessageIn, wellFormed: bytes -> bool)
    requires m.payload.connectionId != conn
    ensures SameConn(conn, rt, MessageTick(s, rt, m, wellFormed).0)
  {
    RR.MessageIndex(s, rt, m, wellFormed);
  }

  lemma SendAvoids(s: Suite, conn: ConnectionId, rt: RuntimeState, inner: bytes, peer: Key32, nonces: ConnectionId -> Nonce)
    requires RR.MapsAgree(rt.index) && conn !in ConnsOf(rt.index.pkToConn, peer)
    ensures SameConn(conn, rt, SendMessage(s, rt, inner, peer, nonces).0)
  {
    if peer in rt.index.pkToConn && peer in rt.pkToAddr {
      RR.IndexedConns(rt.index, peer);
      RR.SendOnAllConns(s, rt.index.sessions, rt.index.pkToConn[peer], inner, nonces);
    }
  }

  lemma OthersAvoid(s: Suite, conn: ConnectionId, rt: RuntimeState, e: RR.Event)
    requires !e.HandshakePacket? && !e.MessagePacket? && !e.SendTo?
    ensures RR.Ready(rt, e) && SameConn(conn, rt, RR.Step(s, rt, e))
  {
  }

  /** An event that avoids the connection leaves its session alone, if it has one, and does not bring one. */
  lemma AvoidingKeepsConn(s: Suite, conn: ConnectionId, rt: RuntimeState, e: RR.Event)
    requires RR.RuntimeOk(s, rt) && RR.Allowed(s, rt, e) && Avoids(s, conn, rt, e)
    ensures SameConn(conn, rt, RR.Step(s, rt, e))
  {
    match e
    case HandshakePacket(i) => HandshakeAvoids(s, conn, rt, i);
    case MessagePacket(m, wellFormed) => MessageAvoids(s, conn, rt, m, wellFormed);
    case SendTo(inner, peer, nonces) => SendAvoids(s, conn, rt, inner, peer, nonces);
    case _ => OthersAvoid(s, conn, rt, e);
  }

  lemma ElsewhereEnds(s: Suite, ends: Ends, l: Link, p: A.Party, e: RR.Event)
    requires SideOk(s, ends, l, p) && RR.Allowed(s, Rt(l, p), e) && Avoids(s, ends.conn, Rt(l, p), e)
    ensures var l' := WithRt(l, p, RR.Step(s, Rt(l, p), e));
            && SideOk(s, ends, l', p) && Rt(l', A.Other(p)) == Rt(l, A.Other(p))
            && forall q :: Alive(ends, l', q) <==> Alive(ends, l, q)
  {
    AvoidingKeepsConn(s, ends.conn, Rt(l, p), e);
    RR.StepKeepsRuntime(s, Rt(l, p), e);
  }

  lemma ElsewhereKeepsLink(s: Suite, shared: Key32, ends: Ends, l: Link, p: A.Party, e: RR.Event)
    requires LinkOk(s, shared, ends, l) && RR.Allowed(s, Rt(l, p), e) && Avoids(s, ends.conn, Rt(l, p), e)
    ensures LinkOk(s, shared, ends, WithRt(l, p, RR.Step(s, Rt(l, p), e)))
  {
    var l' := WithRt(l, p, RR.Step(s, Rt(l, p), e));
    EitherSide(s, shared, ends, l, p);
    ElsewhereEnds(s, ends, l, p, e);
    OtherEnd(s, ends, l, l', A.Other(p));
    BothSides(s, ends, l', p);
  }

  // -------- runs --------

  lemma StepKeepsLink(s: Suite, shared: Key32, ends: Ends, l: Link, ev: Event)
    requires Lawful(s) && LinkOk(s, shared, ends, l) && Allowed(s, ends, l, ev)
    ensures LinkOk(s, shared, ends, Step(s, ends, l, ev))
  {
    match ev
    case Posting(p, peer, post, nonces) => PostingKeepsLink(s, shared, ends, l, p, peer, post, nonces);
    case Arriving(_, _, _, _, _, _) => ArrivalKeepsLink(s, shared, ends, l, ev);
    case Elsewhere(p, e) => ElsewhereKeepsLink(s, shared, ends, l, p, e);
  }

  /** The event is no delivery to q, or one of a message in reach that q had not opened before. */
  ghost predicate NoLoss(l: Link, ev: Event, q: A.Party)
    requires Ready(l, ev)
  {
    ev.Arriving? && To(l, ev) == q ==> A.FirstInReach(l.world, l.world.network[ev.index])
  }

  lemma AliveAfterStep(s: Suite, shared: Key32, ends: Ends, l: Link, ev: Event, q: A.Party)
    requires Lawful(s) && LinkOk(s, shared, ends, l) && Allowed(s, ends, l, ev)
    ensures Alive(ends, Step(s, ends, l, ev), q) <==> Alive(ends, l, q) && NoLoss(l, ev, q)
  {
    match ev
    case Posting(p, peer, post, nonces) => PostingKeepsAlive(s, shared, ends, l, p, peer, post, nonces, q);
    case Arriving(_, _, _, _, _, _) => AliveAfterArrival(s, shared, ends, l, ev, q);
    case Elsewhere(p, e) =>
      EitherSide(s, shared, ends, l, p);
      ElsewhereEnds(s, ends, l, p, e);
  }

  ghost predicate AllowedRun(s: Suite, ends: Ends, l: Link, evs: seq<Event>)
    decreases |evs|
  {
    evs == [] || (Allowed(s, ends, l, evs[0]) && AllowedRun(s, ends, Step(s, ends, l, evs[0]), evs[1..]))
  }

  ghost function Run(s: Suite, ends: Ends, l: Link, evs: seq<Event>): Link
    requires AllowedRun(s, ends, l, evs)
    decreases |evs|
  {
    if evs == [] then l else Run(s, ends, Step(s, ends, l, evs[0]), evs[1..])
  }

  /** Every delivery to q in the run was a first delivery in reach at its moment. */
  ghost predicate AllFirst(s: Suite, ends: Ends, l: Link, evs: seq<Event>, q: A.Party)
    requires AllowedRun(s, ends, l, evs)
    decreases |evs|
  {
    evs == [] || (NoLoss(l, evs[0], q) && AllFirst(s, ends, Step(s, ends, l, evs[0]), evs[1..], q))
  }

  lemma {:induction false} RunKeepsLink(s: Suite, shared: Key32, ends: Ends, l: Link, evs: seq<Event>)
    requires Lawful(s) && LinkOk(s, shared, ends, l) && AllowedRun(s, ends, l, evs)
    ensures LinkOk(s, shared, ends, Run(s, ends, l, evs))
    decreases |evs|
  {
    if evs != [] {
      StepKeepsLink(s, shared, ends, l, evs[0]);
      RunKeepsLink(s, shared, ends, Step(s, ends, l, evs[0]), evs[1..]);
    }
  }

  /** A connection lasts exactly as long as every delivery over it is a first delivery in reach. */
  lemma {:induction false} AliveIff(s: Suite, shared: Key32, ends: Ends, l: Link, evs: seq<Event>, q: A.Party)
    requires Lawful(s) && LinkOk(s, shared, ends, l) && AllowedRun(s, ends, l, evs)
    ensures Alive(ends, Run(s, ends, l, evs), q) <==> Alive(ends, l, q) && AllFirst(s, ends, l, evs, q)
    decreases |evs|
  {
    if evs != [] {
      StepKeepsLink(s, shared, ends, l, evs[0]);
      AliveAfterStep(s, shared, ends, l, evs[0], q);
      AliveIff(s, shared, ends, Step(s, ends, l, evs[0]), evs[1..], q);
    }
  }

  /**
   * End to end, over any run of both runtimes: the packet arriving now makes its receiver hand over exactly the
   * message posted in it, under the poster's master key, if and only if it is a first delivery in reach, its
   * digest is new, it parses, and every earlier delivery to that receiver over the connection was a first
   * delivery in reach too.
   */
  lemma HandedOverIff(s: Suite, shared: Key32, ends: Ends, from: Link, evs: seq<Event>, ev: Event)
    requires Lawful(s) && LinkOk(s, shared, ends, from) && AllowedRun(s, ends, from, evs)
    requires ev.Arriving? && Allowed(s, ends, Run(s, ends, from, evs), ev)
    ensures var l := Run(s, ends, from, evs);
            |l.posts| == |l.world.network| &&
            var p, m, post := To(l, ev), l.world.network[ev.index], l.posts[ev.index];
            Arrived(s, ends, l, ev).1.message ==
              if Alive(ends, from, p) && AllFirst(s, ends, from, evs, p) && A.FirstInReach(l.world, m)
                 && s.digest(Master(ends, A.Other(p)) + post.key) !in Rt(l, p).receivedKeys && ev.wellFormed(post.message)
              then Some((post.message, Master(ends, A.Other(p)))) else None
  {
    var l := Run(s, ends, from, evs);
    RunKeepsLink(s, shared, ends, from, evs);
    AliveIff(s, shared, ends, from, evs, To(l, ev));
    if Alive(ends, l, To(l, ev)) {
      ArrivesAtLive(s, shared, ends, l, ev);
    } else {
      ArrivesAtDead(s, shared, ends, l, ev);
    }
  }

  /** Once a party has lost the connection, nothing that arrives over it is ever handed over again. */
  lemma SilentForGood(s: Suite, shared: Key32, ends: Ends, from: Link, evs: seq<Event>, ev: Event)
    requires Lawful(s) && LinkOk(s, shared, ends, from) && AllowedRun(s, ends, from, evs)
    requires ev.Arriving? && Allowed(s, ends, Run(s, ends, from, evs), ev)
    requires !Alive(ends, from, To(Run(s, ends, from, evs), ev))
    ensures Arrived(s, ends, Run(s, ends, from, evs), ev).1.message == None
  {
    HandedOverIff(s, shared, ends, from, evs, ev);
  }

  // -------- from the handshake --------

  lemma EndMasters(s: Suite, x: SR.Exchange)
    requires s.validKey(x.certI.ed25519)
    ensures SR.InitiatorEnd(s, x).ourMasterPub == Some(x.masterI) && SR.ResponderEnd(s, x).ourMasterPub == Some(x.masterR)
  {
  }

  /** One end of a link right after its runtime has indexed the session of a finished handshake. */
  lemma EndAfterHandshake(s: Suite, rt: RuntimeState, i: Incoming, conn: ConnectionId, pk: Key32, st: SessionState, master: Key32)
    requires RR.RuntimeOk(s, rt) && HandshakeReady(rt, i) && conn !in rt.index.sessions
    requires RR.FreshConnection(rt, RR.NewSession(s, rt, i))
    requires HandshakeTick(s, rt, i).0.index == AddConn(rt.index, conn, pk, st)
    requires st.ratchet.Some? && st.ourMasterPub == Some(master)
    ensures EndOk(s, conn, master, HandshakeTick(s, rt, i).0, st.ratchet.value) && conn in HandshakeTick(s, rt, i).0.index.sessions
  {
    RR.StepKeepsRuntime(s, rt, RR.HandshakePacket(i));
  }

  /** What both ends' runtimes come to when one handshake goes through. */
  ghost predicate HandshakeDone(s: Suite, x: SR.Exchange, rtI: RuntimeState, i: Incoming, rtR: RuntimeState, j: Incoming) {
    && s.validKey(x.certI.ed25519) && s.validKey(x.certR.ed25519)
    && RR.ReplyComesIn(s, x, rtI, i) && x.certR.x25519 == x.staticR && Verifies(s, x.expected, x.certR)
    && RR.MessageComesIn(s, x, rtR, j) && x.certI.x25519 == x.staticI
    && RR.RuntimeOk(s, rtI) && RR.RuntimeOk(s, rtR)
    && s.connectionId(x.hash) !in rtI.index.sessions && s.connectionId(x.hash) !in rtR.index.sessions
  }

  lemma InitiatorSide(s: Suite, x: SR.Exchange, rtI: RuntimeState, i: Incoming, rtR: RuntimeState, j: Incoming)
    requires HandshakeDone(s, x, rtI, i, rtR, j)
    ensures HandshakeReady(rtI, i) && SR.InitiatorEnd(s, x).ratchet.Some?
    ensures var rt := HandshakeTick(s, rtI, i).0;
            && EndOk(s, s.connectionId(x.hash), x.masterI, rt, SR.InitiatorEnd(s, x).ratchet.value)
            && s.connectionId(x.hash) in rt.index.sessions
  {
    RR.InitiatorNotice(s, x, rtI, i);
    SR.InitiatorEndIs(s, x);
    EndMasters(s, x);
    RR.NewSessionIs(s, rtI, i, s.connectionId(x.hash), x.expected, SR.InitiatorEnd(s, x));
    EndAfterHandshake(s, rtI, i, s.connectionId(x.hash), x.expected, SR.InitiatorEnd(s, x), x.masterI);
  }

  lemma ResponderSide(s: Suite, x: SR.Exchange, rtI: RuntimeState, i: Incoming, rtR: RuntimeState, j: Incoming)
    requires HandshakeDone(s, x, rtI, i, rtR, j)
    ensures HandshakeReady(rtR, j) && SR.ResponderEnd(s, x).ratchet.Some?
    ensures var rt := HandshakeTick(s, rtR, j).0;
            && EndOk(s, s.connectionId(x.hash), x.masterR, rt, SR.ResponderEnd(s, x).ratchet.value)
            && s.connectionId(x.hash) in rt.index.sessions
  {
    RR.ResponderNotice(s, x, rtR, j);
    SR.ResponderEndIs(s, x);
    EndMasters(s, x);
    RR.NewSessionIs(s, rtR, j, s.connectionId(x.hash), x.masterI, SR.ResponderEnd(s, x));
    EndAfterHandshake(s, rtR, j, s.connectionId(x.hash), x.masterI, SR.ResponderEnd(s, x), x.masterR);
  }

  /** The link between two runtimes right after a handshake. */
  function Linked(s: Suite, x: SR.Exchange, rtI: RuntimeState, i: Incoming, rtR: RuntimeState, j: Incoming): Link
    requires HandshakeReady(rtI, i) && HandshakeReady(rtR, j)
  {
    Link(HandshakeTick(s, rtI, i).0, HandshakeTick(s, rtR, j).0, [], [],
         A.Start(s, RootKey(s, x.hash, x.a0, s.publicKey(x.b0)), x.a0, x.b0, x.a1, x.nowI, x.nowR))
  }

  lemma LinkedRatchets(s: Suite, x: SR.Exchange)
    requires Lawful(s) && s.validKey(x.certI.ed25519) && s.validKey(x.certR.ed25519) && x.again.None?
    requires Established(SR.InitiatorEnd(s, x)) && Established(SR.ResponderEnd(s, x))
    ensures var w := A.Start(s, RootKey(s, x.hash, x.a0, s.publicKey(x.b0)), x.a0, x.b0, x.a1, x.nowI, x.nowR);
            SR.InitiatorEnd(s, x).ratchet == Some(A.Side(w, A.Initiator)) && SR.ResponderEnd(s, x).ratchet == Some(A.Side(w, A.Responder))
  {
    SR.BothEndsAgree(s, x);
  }

  lemma LinkStarts(s: Suite, shared: Key32, ends: Ends, l: Link)
    requires A.Inv(s, shared, l.world) && l.world.network == [] && l.posts == [] && l.wire == []
    requires EndOk(s, ends.conn, ends.masterI, l.initiator, l.world.initiator)
    requires EndOk(s, ends.conn, ends.masterR, l.responder, l.world.responder)
    ensures LinkOk(s, shared, ends, l)
  {
  }

  lemma BothAlive(ends: Ends, l: Link)
    requires ends.conn in l.initiator.index.sessions && ends.conn in l.responder.index.sessions
    ensures forall p :: Alive(ends, l, p)
  {
  }

  /** The two ticks of a handshake whose first message was written once start a link with both ends alive. */
  lemma TicksStartLink(s: Suite, x: SR.Exchange, rtI: RuntimeState, i: Incoming, rtR: RuntimeState, j: Incoming)
    requires Lawful(s) && HandshakeDone(s, x, rtI, i, rtR, j) && x.again.None? && A.KeysOk(s, [x.a0, x.b0, x.a1])
    ensures HandshakeReady(rtI, i) && HandshakeReady(rtR, j)
    ensures var ends := Ends(s.connectionId(x.hash), x.masterI, x.masterR);
            var l := Linked(s, x, rtI, i, rtR, j);
            LinkOk(s, RootKey(s, x.hash, x.a0, s.publicKey(x.b0)), ends, l) && forall p :: Alive(ends, l, p)
  {
    var shared := RootKey(s, x.hash, x.a0, s.publicKey(x.b0));
    InitiatorSide(s, x, rtI, i, rtR, j);
    ResponderSide(s, x, rtI, i, rtR, j);
    LinkedRatchets(s, x);
    A.StartInv(s, shared, x.a0, x.b0, x.a1, x.nowI, x.nowR);
    var ends, l := Ends(s.connectionId(x.hash), x.masterI, x.masterR), Linked(s, x, rtI, i, rtR, j);
    LinkStarts(s, shared, ends, l);
    BothAlive(ends, l);
  }

  /** The Noise library at both ends of one handshake, for its two messages. */
  datatype Noise = Noise(
    writeFirst: bytes -> Result<bytes, string>,
    readFirst: bytes -> Result<bytes, string>,
    writeReply: bytes -> Result<(bytes, HandshakeResult), string>,
    readReply: bytes -> Result<HandshakeResult, string>)

  /** Each end reads what the other wrote, and both come to the same hash and to each other's static key. */
  ghost predicate Delivers(s: Suite, x: SR.Exchange, n: Noise) {
    var first, reply := FirstPayload(s, x.a0, x.certI, x.masterI, x.addr), ReplyPayload(s, x.b0, x.certR);
    && n.writeFirst(first).Success? && n.readFirst(n.writeFirst(first).value) == Success(first)
    && n.writeReply(reply).Success? && n.writeReply(reply).value.1 == HandshakeResult(x.hash, x.staticI, [])
    && n.readReply(n.writeReply(reply).value.0) == Success(HandshakeResult(x.hash, x.staticR, reply))
  }

  /** A handshake packet as the runtime that gets it reads it: its tag and bytes, and what its own Noise and random source add. */
  function Received(payload: Payload, sender: SocketAddr, ackRequired: bool, n: Noise, preSecret: Key32, replySecret: Key32, now: nat): Incoming {
    Incoming(payload.connectionId, sender, ackRequired, n.readReply(payload.data), n.readFirst(payload.data), n.writeReply,
             preSecret, replySecret, now)
  }

  /** Two runtimes about to shake hands under a tag the responder has not seen. */
  ghost predicate AboutToShake(s: Suite, x: SR.Exchange, tag: ConnectionId, rtI: RuntimeState, rtR: RuntimeState) {
    && tag in rtI.pending && rtI.pending[tag] == (NewInitiator(x.certI, x.masterI, x.expected), Some(x.expected))
    && rtI.masterPub == Some(x.masterI) && x.expected in rtI.pkToAddr && x.again.None?
    && rtR.masterPub == Some(x.masterR) && rtR.deviceCert == Some(x.certR)
    && tag !in rtR.seenTags && tag !in rtR.pending
    && s.validKey(x.certI.ed25519) && x.certI.x25519 == x.staticI
    && s.validKey(x.certR.ed25519) && x.certR.x25519 == x.staticR && Verifies(s, x.expected, x.certR)
    && RR.RuntimeOk(s, rtI) && RR.RuntimeOk(s, rtR)
    && s.connectionId(x.hash) !in rtI.index.sessions && s.connectionId(x.hash) !in rtR.index.sessions
  }

  lemma FirstPacketComesIn(s: Suite, x: SR.Exchange, n: Noise, tag: ConnectionId, rtI: RuntimeState, rtR: RuntimeState,
                           sender: SocketAddr, ack: bool, pre: Key32)
    requires Delivers(s, x, n) && AboutToShake(s, x, tag, rtI, rtR)
    ensures var (rt, first) := BeginHandshake(s, rtI, tag, x.addr, x.a0, n.writeFirst);
            && first.Success? && first.value.1 == rtI.pkToAddr[x.expected] && first.value.0.connectionId == tag
            && RR.MessageComesIn(s, x, rtR, Received(first.value.0, sender, ack, n, pre, x.b0, x.nowR))
            && tag in rt.pending && rt.pending[tag] == (SR.Waiting(s, x), Some(x.expected)) && rt == rtI.(pending := rt.pending)
  {
    RR.FirstPacket(s, x, rtI, tag, n.writeFirst);
  }

  lemma BegunRuntimeOk(s: Suite, x: SR.Exchange, n: Noise, tag: ConnectionId, rtI: RuntimeState)
    requires RR.RuntimeOk(s, rtI)
    ensures RR.RuntimeOk(s, BeginHandshake(s, rtI, tag, x.addr, x.a0, n.writeFirst).0)
  {
    if tag in rtI.pending {
      RR.BeginKeepsPending(s, rtI, tag, x.addr, x.a0, n.writeFirst);
    }
  }

  lemma ReplyComesBack(s: Suite, x: SR.Exchange, n: Noise, rtI: RuntimeState, rtR: RuntimeState, j: Incoming,
                       sender: SocketAddr, ack: bool, other: Key32)
    requires s.validKey(x.certI.ed25519) && x.certI.x25519 == x.staticI
    requires Delivers(s, x, n) && RR.MessageComesIn(s, x, rtR, j) && j.reply == n.writeReply
    requires j.tag in rtI.pending && rtI.pending[j.tag] == (SR.Waiting(s, x), Some(x.expected)) && rtI.masterPub == Some(x.masterI)
    ensures HandshakeReady(rtR, j)
    ensures var answer := HandshakeTick(s, rtR, j).1.reply;
            && answer.Some? && answer.value.1 == SR.PlainAddr(x.addr) && answer.value.0.connectionId == j.tag
            && RR.ReplyComesIn(s, x, rtI, Received(answer.value.0, sender, ack, n, x.a1, other, x.nowI))
  {
    RR.ResponderAnswers(s, x, rtR, j);
  }

  /**
   * A handshake from end to end: the initiator's packet goes to the address known for the peer it expects, the
   * responder answers under the same tag to the address given in it, and once that answer is in, both runtimes
   * have the connection, in step.
   */
  lemma HandshakeStartsLink(s: Suite, x: SR.Exchange, n: Noise, tag: ConnectionId, rtI: RuntimeState, rtR: RuntimeState,
                            fromI: SocketAddr, fromR: SocketAddr, ackI: bool, ackR: bool, pre: Key32, other: Key32)
    requires Lawful(s) && Delivers(s, x, n) && AboutToShake(s, x, tag, rtI, rtR) && A.KeysOk(s, [x.a0, x.b0, x.a1])
    ensures var (begun, first) := BeginHandshake(s, rtI, tag, x.addr, x.a0, n.writeFirst);
            && first.Success? && first.value.1 == rtI.pkToAddr[x.expected]
            && var j := Received(first.value.0, fromI, ackR, n, pre, x.b0, x.nowR);
            && HandshakeReady(rtR, j)
            && var answer := HandshakeTick(s, rtR, j).1.reply;
            && answer.Some? && answer.value.1 == SR.PlainAddr(x.addr)
            && var i := Received(answer.value.0, fromR, ackI, n, x.a1, other, x.nowI);
            && HandshakeReady(begun, i)
            && var ends := Ends(s.connectionId(x.hash), x.masterI, x.masterR);
            && LinkOk(s, RootKey(s, x.hash, x.a0, s.publicKey(x.b0)), ends, Linked(s, x, begun, i, rtR, j))
            && forall p :: Alive(ends, Linked(s, x, begun, i, rtR, j), p)
  {
    var (begun, first) := BeginHandshake(s, rtI, tag, x.addr, x.a0, n.writeFirst);
    FirstPacketComesIn(s, x, n, tag, rtI, rtR, fromI, ackR, pre);
    BegunRuntimeOk(s, x, n, tag, rtI);
    var j := Received(first.value.0, fromI, ackR, n, pre, x.b0, x.nowR);
    ReplyComesBack(s, x, n, begun, rtR, j, fromR, ackI, other);
    var i := Received(HandshakeTick(s, rtR, j).1.reply.value.0, fromR, ackI, n, x.a1, other, x.nowI);
    TicksStartLink(s, x, begun, i, rtR, j);
  }
}
